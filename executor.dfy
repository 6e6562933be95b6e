/**
 * The agent's orchestration pipeline (`AgentExecutor` of the top-level
 * crate): derive a retrieval query, search the vault, build the prompt, run
 * inference, read actions out of the answer by keywords, and run them.
 */
module Executor {
  import opened Wrappers
  import opened Text
  import opened AgentUtils
  import opened AgentTypes
  import opened VaultTypes
  import opened EngineTypes
  import opened SandboxTypes

  /** How `execute` ends without a response: a propagated error, or a panic of a byte slice. */
  datatype Failure = Error(message: string) | Panic(message: string)

  /**
   * `AgentExecutor` with its three services. The `{:.2}` rendering of an
   * `f32` similarity is given as `formatSimilarity`.
   */
  datatype AgentExecutor = AgentExecutor(
    engine: EngineManager, vault: VaultDatabase, sandbox: SandboxExecutor,
    formatSimilarity: real -> string)

  const ContextLimit: nat := 5
  const SearchLimit: nat := 10
  const PromptPreviewBytes: nat := 200
  const ArtifactPreviewBytes: nat := 150

  const Preamble: string :=
    "你是一个本地 AI Agent，名为 Silo。" + "你的任务是帮助用户完成各种任务，"
    + "同时确保所有操作都在本地完成，保护用户隐私。\n\n"
  const InstructionLabel: string := "用户指令: "
  const ContextHeader: string := "相关上下文（来自本地知识库）:\n"
  const Closing: string := "请分析任务并给出执行计划。" + "如果需要执行代码、搜索文档或操作文件，请明确说明。"
  const DocumentLabel: string := "文档 "
  const SimilarityLabel: string := "] (相似度: "
  const Ellipsis: string := "..."
  const NotCharBoundary: string := "byte index is not a char boundary"
  const PlainText: string := "text/plain"
  const Markdown: string := "text/markdown"

  // ---------------------------------------------------------------------------
  // query

  /** The retrieval query: the task's context verbatim, else the instruction's keywords. */
  function ContextQuery(task: AgentTask): (q: string)
    ensures task.context.Some? ==> q == task.context.value
    ensures task.context.None? ==> q == ExtractKeywords(task.instruction)
  {
    match task.context
    case Some(query) => query
    case None => ExtractKeywords(task.instruction)
  }

  // ---------------------------------------------------------------------------
  // previews and result entries

  /**
   * A document excerpt: the content itself when it has at most `limit` bytes,
   * else its first `limit` bytes and "...", or a panic when byte `limit` falls
   * inside a character.
   */
  function Preview(content: string, limit: nat): (r: Result<string, Failure>)
    ensures Utf8Len(content) <= limit ==> r == Ok(content)
    ensures r.Err? <==>
      Utf8Len(content) > limit && forall k :: 0 <= k <= |content| ==> Utf8Len(content[..k]) != limit
    ensures r.Err? ==> r.error == Panic(NotCharBoundary)
    ensures r.Ok? && Utf8Len(content) > limit ==>
      |r.value| >= 3 &&
      var cut := r.value[..|r.value| - 3];
      r.value == cut + Ellipsis && |cut| <= |content| && cut == content[..|cut|] && Utf8Len(cut) == limit
  {
    if Utf8Len(content) > limit then
      match BytePrefix(content, limit)
      case None => Err(Panic(NotCharBoundary))
      case Some(cut) =>
        assert (cut + Ellipsis)[..|cut|] == cut;
        Ok(cut + Ellipsis)
    else
      Ok(content)
  }

  /** One result as both listings print it: `[<tag><n>] (相似度: <s>)`, a line break, the excerpt, a blank line. */
  function Entry(format: real -> string, tag: string, n: nat, result: SearchResult, limit: nat): Result<string, Failure> {
    match Preview(result.document.content, limit)
    case Err(e) => Err(e)
    case Ok(preview) =>
      Ok("[" + tag + NatToString(n) + SimilarityLabel + format(result.similarity) + ")\n" + preview + "\n\n")
  }

  /** The entries of `results[from..]`, numbered from `from + 1`; the first panic stops the listing. */
  function Entries(format: real -> string, tag: string, results: seq<SearchResult>, from: nat, limit: nat)
    : Result<string, Failure>
    decreases |results| - from
  {
    if from >= |results| then Ok("")
    else
      match Entry(format, tag, from + 1, results[from], limit)
      case Err(e) => Err(e)
      case Ok(entry) =>
        match Entries(format, tag, results, from + 1, limit)
        case Err(e) => Err(e)
        case Ok(rest) => Ok(entry + rest)
  }

  /** `text` followed by the text of `r`, or the failure of `r`. */
  function PrependText(text: string, r: Result<string, Failure>): Result<string, Failure> {
    match r
    case Ok(s) => Ok(text + s)
    case Err(e) => Err(e)
  }

  /** The listing panics exactly when some excerpt would cut a character. */
  lemma {:induction false} EntriesPanic(format: real -> string, tag: string, results: seq<SearchResult>, from: nat, limit: nat)
    ensures Entries(format, tag, results, from, limit).Err? <==>
      exists k :: from <= k < |results| && Preview(results[k].document.content, limit).Err?
    ensures Entries(format, tag, results, from, limit).Err? ==>
      Entries(format, tag, results, from, limit) == Err(Panic(NotCharBoundary))
    decreases |results| - from
  {
    if from < |results| {
      EntriesPanic(format, tag, results, from + 1, limit);
      var e := Entry(format, tag, from + 1, results[from], limit);
      assert e.Err? <==> Preview(results[from].document.content, limit).Err?;
      assert e.Err? ==> e == Err(Panic(NotCharBoundary));
      if e.Ok? && Entries(format, tag, results, from + 1, limit).Err? {
        var k :| from + 1 <= k < |results| && Preview(results[k].document.content, limit).Err?;
        assert from <= k;
      }
    }
  }

  /** The entry of every result on its own, the k-th numbered `k + 1`. */
  function EntryResults(format: real -> string, tag: string, results: seq<SearchResult>, limit: nat)
    : (es: seq<Result<string, Failure>>)
    ensures |es| == |results|
  {
    seq(|results|, k requires 0 <= k < |results| => Entry(format, tag, k + 1, results[k], limit))
  }

  /** The texts of the successful entries, one after the other. */
  function OkTexts(es: seq<Result<string, Failure>>): string {
    if es == [] then "" else (if es[0].Ok? then es[0].value else "") + OkTexts(es[1..])
  }

  /**
   * The listing succeeds exactly when every entry does, and then it is every
   * result's entry, numbered from 1, in result order.
   */
  lemma EntriesListing(format: real -> string, tag: string, results: seq<SearchResult>, limit: nat)
    ensures var r := Entries(format, tag, results, 0, limit);
      var es := EntryResults(format, tag, results, limit);
      && (r.Ok? <==> forall k :: 0 <= k < |es| ==> es[k].Ok?)
      && (r.Ok? ==> r.value == OkTexts(es))
  {
    var es := EntryResults(format, tag, results, limit);
    EntriesFrom(format, tag, results, 0, limit);
    assert es[0..] == es;
  }

  lemma {:induction false} EntriesFrom(format: real -> string, tag: string, results: seq<SearchResult>, from: nat, limit: nat)
    requires from <= |results|
    ensures var r := Entries(format, tag, results, from, limit);
      var es := EntryResults(format, tag, results, limit);
      && (r.Ok? <==> forall k :: from <= k < |es| ==> es[k].Ok?)
      && (r.Ok? ==> r.value == OkTexts(es[from..]))
    decreases |results| - from
  {
    var es := EntryResults(format, tag, results, limit);
    if from == |results| {
      assert es[from..] == [];
    } else {
      EntriesFrom(format, tag, results, from + 1, limit);
      assert es[from] == Entry(format, tag, from + 1, results[from], limit);
      assert es[from..][0] == es[from] && es[from..][1..] == es[from + 1..];
    }
  }

  /** A step of a listing loop: the entry for `results[i]`, then the rest. */
  lemma EntriesStep(format: real -> string, tag: string, results: seq<SearchResult>, i: nat, limit: nat, text: string)
    requires i < |results|
    ensures var e := Entry(format, tag, i + 1, results[i], limit);
      e.Err? ==> PrependText(text, Entries(format, tag, results, i, limit)) == e
    ensures var e := Entry(format, tag, i + 1, results[i], limit);
      e.Ok? ==>
        PrependText(text, Entries(format, tag, results, i, limit)) ==
        PrependText(text + e.value, Entries(format, tag, results, i + 1, limit))
  {
    var e := Entry(format, tag, i + 1, results[i], limit);
    var rest := Entries(format, tag, results, i + 1, limit);
    if e.Ok? && rest.Ok? {
      assert text + (e.value + rest.value) == text + e.value + rest.value;
    }
  }

  /**
   * The loop over search results that both `build_enhanced_prompt` and the
   * `SearchQuery` arm of `execute_actions` run: append one entry per result.
   */
  method AppendEntries(format: real -> string, tag: string, text: string, results: seq<SearchResult>, limit: nat)
    returns (r: Result<string, Failure>)
    ensures r == PrependText(text, Entries(format, tag, results, 0, limit))
  {
    var out := text;
    for idx := 0 to |results|
      invariant PrependText(out, Entries(format, tag, results, idx, limit)) ==
        PrependText(text, Entries(format, tag, results, 0, limit))
    {
      var result := results[idx];
      EntriesStep(format, tag, results, idx, limit, out);
      var preview := Preview(result.document.content, limit);
      if preview.Err? {
        return Err(preview.error);
      }
      out := out + ("[" + tag + NatToString(idx + 1) + SimilarityLabel + format(result.similarity) + ")\n"
        + preview.value + "\n\n");
    }
    assert out + "" == out;
    return Ok(out);
  }

  // ---------------------------------------------------------------------------
  // build_enhanced_prompt

  /** The prompt's fixed head: the preamble and the `用户指令:` line with a blank line after it. */
  function PromptHead(instruction: string): string {
    Preamble + InstructionLabel + instruction + "\n\n"
  }

  /** The context block: empty without results, else the header and the numbered excerpts. */
  function ContextBlock(format: real -> string, context: seq<SearchResult>): Result<string, Failure> {
    if context == [] then Ok("")
    else PrependText(ContextHeader, Entries(format, DocumentLabel, context, 0, PromptPreviewBytes))
  }

  /** `build_enhanced_prompt(task, context)`. */
  function EnhancedPrompt(format: real -> string, task: AgentTask, context: seq<SearchResult>): Result<string, Failure> {
    match ContextBlock(format, context)
    case Err(e) => Err(e)
    case Ok(block) => Ok(PromptHead(task.instruction) + block + Closing)
  }

  /**
   * The prompt is the head, the context block and the closing sentence; the
   * block is empty when there are no results, and otherwise is the header
   * followed by every result's numbered entry, in result order. It panics
   * exactly when an excerpt would cut a character.
   */
  lemma PromptShape(format: real -> string, task: AgentTask, context: seq<SearchResult>)
    ensures var r := EnhancedPrompt(format, task, context);
      var es := EntryResults(format, DocumentLabel, context, PromptPreviewBytes);
      && (r.Err? <==> exists k :: 0 <= k < |context| && Preview(context[k].document.content, PromptPreviewBytes).Err?)
      && (r.Ok? ==> forall k :: 0 <= k < |es| ==> es[k].Ok?)
      && (r.Ok? ==>
            var block := if context == [] then "" else ContextHeader + OkTexts(es);
            r.value == PromptHead(task.instruction) + block + Closing)
  {
    EntriesPanic(format, DocumentLabel, context, 0, PromptPreviewBytes);
    EntriesListing(format, DocumentLabel, context, PromptPreviewBytes);
  }

  /** `build_enhanced_prompt`, appending to the prompt piece by piece. */
  method BuildEnhancedPrompt(exec: AgentExecutor, task: AgentTask, context: seq<SearchResult>)
    returns (r: Result<string, Failure>)
    ensures r == EnhancedPrompt(exec.formatSimilarity, task, context)
  {
    var prompt := Preamble;
    prompt := prompt + (InstructionLabel + task.instruction + "\n\n");
    assert prompt == PromptHead(task.instruction);
    if |context| > 0 {
      prompt := prompt + ContextHeader;
      var listed := AppendEntries(exec.formatSimilarity, DocumentLabel, prompt, context, PromptPreviewBytes);
      if listed.Err? {
        return Err(listed.error);
      }
      ghost var entries := Entries(exec.formatSimilarity, DocumentLabel, context, 0, PromptPreviewBytes).value;
      assert listed.value == PromptHead(task.instruction) + (ContextHeader + entries);
      prompt := listed.value;
    } else {
      assert prompt == PromptHead(task.instruction) + "";
    }
    prompt := prompt + Closing;
    return Ok(prompt);
  }

  // ---------------------------------------------------------------------------
  // parse_actions

  /** The search trigger of `parse_actions`, on the lower-cased reasoning. */
  predicate SearchTriggered(reasoning: string) {
    var r := Lower(reasoning);
    Contains(r, "搜索") || Contains(r, "查找") || Contains(r, "search")
  }

  /** The code trigger of `parse_actions`, on the lower-cased reasoning and instruction. */
  predicate CodeTriggered(reasoning: string, instruction: string) {
    var r, i := Lower(reasoning), Lower(instruction);
    Contains(r, "代码") || Contains(r, "执行") || Contains(r, "运行") || Contains(i, "python") || Contains(i, "代码")
  }

  /** The search action `parse_actions` pushes: the instruction's keywords, when triggered and non-empty. */
  function SearchPart(reasoning: string, instruction: string): (r: seq<AgentAction>)
    ensures r == [] || r == [SearchQuery(ExtractSearchQuery(instruction))]
    ensures r != [] <==> SearchTriggered(reasoning) && ExtractSearchQuery(instruction) != []
  {
    var query := ExtractSearchQuery(instruction);
    if SearchTriggered(reasoning) && query != [] then [SearchQuery(query)] else []
  }

  /** The code action `parse_actions` pushes: the first fenced block as python, when triggered and present. */
  function CodePart(reasoning: string, instruction: string): (r: seq<AgentAction>)
    ensures r == [] || (ExtractCodeBlock(reasoning).Some? && r == [CodeExecution(ExtractCodeBlock(reasoning).value, "python")])
    ensures r != [] <==> CodeTriggered(reasoning, instruction) && ExtractCodeBlock(reasoning).Some?
  {
    var block := ExtractCodeBlock(reasoning);
    if CodeTriggered(reasoning, instruction) && block.Some? then [CodeExecution(block.value, "python")] else []
  }

  /** The actions `parse_actions` reads out of the reasoning: the search first, then the code. */
  function ParsedActions(reasoning: string, instruction: string): seq<AgentAction> {
    SearchPart(reasoning, instruction) + CodePart(reasoning, instruction)
  }

  /**
   * At most one search followed by at most one code execution, never a file
   * operation; a search exactly when the reasoning triggers it and the
   * instruction has keywords, a python code execution exactly when the code
   * trigger fires and the reasoning holds a fenced block, whose code is
   * trimmed and holds no fence.
   */
  lemma ParsedActionsShape(reasoning: string, instruction: string)
    ensures var actions := ParsedActions(reasoning, instruction);
      var query := ExtractSearchQuery(instruction);
      && |actions| <= 2
      && (forall a :: a in actions ==> !a.FileOperation?)
      && (SearchQuery(query) in actions <==> SearchTriggered(reasoning) && query != [])
      && (forall a :: a in actions && a.SearchQuery? ==> a == SearchQuery(query) && a == actions[0])
      && ((exists a :: a in actions && a.CodeExecution?) <==>
            CodeTriggered(reasoning, instruction) && ExtractCodeBlock(reasoning).Some?)
      && (forall a :: a in actions && a.CodeExecution? ==>
            && a == actions[|actions| - 1]
            && a.language == "python"
            && a.code == ExtractCodeBlock(reasoning).value
            && IsTrimmed(a.code) && !Contains(a.code, Fence))
  {
    var block := ExtractCodeBlock(reasoning);
    if block.Some? {
      CodeBlockClean(reasoning);
    }
    ConcatShape(SearchPart(reasoning, instruction), CodePart(reasoning, instruction),
      ExtractSearchQuery(instruction), if block.Some? then block.value else "");
  }

  /** The shape of a search part followed by a code part, whatever their triggers. */
  lemma ConcatShape(search: seq<AgentAction>, code: seq<AgentAction>, query: string, block: string)
    requires search == [] || search == [SearchQuery(query)]
    requires code == [] || code == [CodeExecution(block, "python")]
    ensures var actions := search + code;
      && |actions| <= 2
      && (forall a :: a in actions ==> !a.FileOperation?)
      && (SearchQuery(query) in actions <==> search != [])
      && (forall a :: a in actions && a.SearchQuery? ==> a == SearchQuery(query) && a == actions[0])
      && ((exists a :: a in actions && a.CodeExecution?) <==> code != [])
      && (forall a :: a in actions && a.CodeExecution? ==>
            a == actions[|actions| - 1] && a == CodeExecution(block, "python"))
  {
    var actions := search + code;
    assert forall a :: a in actions <==> a in search || a in code;
    if code != [] {
      assert code[0] in actions;
    }
  }

  /** `parse_actions`: push the search, then the code execution, when triggered. */
  method ParseActions(reasoning: string, instruction: string) returns (actions: seq<AgentAction>)
    ensures actions == ParsedActions(reasoning, instruction)
  {
    actions := [];
    var reasoningLower := Lower(reasoning);
    var instructionLower := Lower(instruction);
    if Contains(reasoningLower, "搜索") || Contains(reasoningLower, "查找") || Contains(reasoningLower, "search") {
      var query := ExtractSearchQuery(instruction);
      if query != [] {
        actions := actions + [SearchQuery(query)];
      }
    }
    assert actions == SearchPart(reasoning, instruction);
    if Contains(reasoningLower, "代码") || Contains(reasoningLower, "执行") || Contains(reasoningLower, "运行")
      || Contains(instructionLower, "python") || Contains(instructionLower, "代码")
    {
      var block := ExtractCodeBlock(reasoning);
      if block.Some? {
        actions := actions + [CodeExecution(block.value, "python")];
      }
    }
    // The file-operation trigger adds no action.
  }

  // ---------------------------------------------------------------------------
  // execute_actions

  /** The `SearchQuery` report: the result count, then the numbered excerpts of 150 bytes. */
  function SearchReport(format: real -> string, results: seq<SearchResult>): Result<string, Failure> {
    PrependText("找到 " + NatToString(|results|) + " 个相关结果:\n\n",
      Entries(format, "", results, 0, ArtifactPreviewBytes))
  }

  /** The artifacts of one action: stdout as plain text, a markdown search report, or none. */
  function ActionArtifacts(exec: AgentExecutor, action: AgentAction): Result<seq<Artifact>, Failure> {
    match action
    case CodeExecution(code, language) =>
      (match exec.sandbox.execute(code, language)
       case Err(m) => Err(Error(m))
       case Ok(result) => Ok([Artifact(result.stdout, PlainText)]))
    case FileOperation(_, _) => Ok([])
    case SearchQuery(query) =>
      (match exec.vault.search(query, SearchLimit)
       case Err(m) => Err(Error(m))
       case Ok(results) =>
         match SearchReport(exec.formatSimilarity, results)
         case Err(e) => Err(e)
         case Ok(content) => Ok([Artifact(content, Markdown)]))
  }

  /** The artifacts of `actions[from..]` in action order; the first failure ends the run. */
  function AllArtifacts(exec: AgentExecutor, actions: seq<AgentAction>, from: nat): Result<seq<Artifact>, Failure>
    decreases |actions| - from
  {
    if from >= |actions| then Ok([])
    else
      match ActionArtifacts(exec, actions[from])
      case Err(e) => Err(e)
      case Ok(these) =>
        match AllArtifacts(exec, actions, from + 1)
        case Err(e) => Err(e)
        case Ok(rest) => Ok(these + rest)
  }

  /**
   * The search report is the result count followed by every result's numbered
   * entry, in result order; it panics exactly when an excerpt would cut a
   * character.
   */
  lemma SearchReportShape(format: real -> string, results: seq<SearchResult>)
    ensures var header := "找到 " + NatToString(|results|) + " 个相关结果:\n\n";
      var r := SearchReport(format, results);
      var es := EntryResults(format, "", results, ArtifactPreviewBytes);
      && (r.Err? <==> exists k :: 0 <= k < |results| && Preview(results[k].document.content, ArtifactPreviewBytes).Err?)
      && (r.Ok? ==> forall k :: 0 <= k < |es| ==> es[k].Ok?)
      && (r.Ok? ==> r.value == header + OkTexts(es))
  {
    EntriesPanic(format, "", results, 0, ArtifactPreviewBytes);
    EntriesListing(format, "", results, ArtifactPreviewBytes);
  }

  /** The artifact one productive action contributes. */
  predicate ArtifactOf(exec: AgentExecutor, action: AgentAction, artifact: Artifact) {
    && (action.CodeExecution? ==>
          && exec.sandbox.execute(action.code, action.language).Ok?
          && artifact == Artifact(exec.sandbox.execute(action.code, action.language).value.stdout, PlainText))
    && (action.SearchQuery? ==>
          && exec.vault.search(action.query, SearchLimit).Ok?
          && SearchReport(exec.formatSimilarity, exec.vault.search(action.query, SearchLimit).value).Ok?
          && artifact == Artifact(SearchReport(exec.formatSimilarity, exec.vault.search(action.query, SearchLimit).value).value, Markdown))
  }

  /** A successful action yields no artifact for a file operation and its one artifact otherwise. */
  lemma ActionArtifact(exec: AgentExecutor, action: AgentAction)
    requires ActionArtifacts(exec, action).Ok?
    ensures var v := ActionArtifacts(exec, action).value;
      if action.FileOperation? then v == [] else |v| == 1 && ArtifactOf(exec, action, v[0])
  {
  }

  /**
   * Artifacts follow action order: one per code execution (plain-text stdout)
   * and one per search (the markdown report of a fresh search with limit 10),
   * none for file operations.
   */
  lemma {:induction false} ArtifactsFollowActions(exec: AgentExecutor, actions: seq<AgentAction>, from: nat)
    requires from <= |actions|
    ensures var r := AllArtifacts(exec, actions, from);
      var p := Productive(actions[from..]);
      r.Ok? ==> |r.value| == |p| && forall k :: 0 <= k < |p| ==> ArtifactOf(exec, p[k], r.value[k])
    decreases |actions| - from
  {
    if from < |actions| {
      ArtifactsFollowActions(exec, actions, from + 1);
      assert actions[from..][1..] == actions[from + 1..];
      var r := AllArtifacts(exec, actions, from);
      if r.Ok? {
        var p := Productive(actions[from..]);
        var tail := Productive(actions[from + 1..]);
        var rest := AllArtifacts(exec, actions, from + 1).value;
        var these := ActionArtifacts(exec, actions[from]).value;
        ActionArtifact(exec, actions[from]);
        assert r.value == these + rest;
        if actions[from].FileOperation? {
          assert p == tail;
        } else {
          assert p == [actions[from]] + tail;
          ArtifactsCons(exec, actions[from], tail, these, rest);
        }
      }
    }
  }

  lemma ArtifactsCons(exec: AgentExecutor, action: AgentAction, tail: seq<AgentAction>, these: seq<Artifact>, rest: seq<Artifact>)
    requires |these| == 1 && ArtifactOf(exec, action, these[0])
    requires |rest| == |tail| && forall k :: 0 <= k < |tail| ==> ArtifactOf(exec, tail[k], rest[k])
    ensures var p, v := [action] + tail, these + rest;
      |v| == |p| && forall k :: 0 <= k < |p| ==> ArtifactOf(exec, p[k], v[k])
  {
    var p, v := [action] + tail, these + rest;
    forall k | 0 <= k < |p| ensures ArtifactOf(exec, p[k], v[k]) {
      if k > 0 {
        assert v[k] == rest[k - 1] && p[k] == tail[k - 1];
      }
    }
  }

  /** Fail-fast: a run fails exactly when one of its actions fails. */
  lemma {:induction false} ArtifactsFailFast(exec: AgentExecutor, actions: seq<AgentAction>, from: nat)
    ensures var r := AllArtifacts(exec, actions, from);
      r.Err? <==> exists k :: from <= k < |actions| && ActionArtifacts(exec, actions[k]).Err?
    decreases |actions| - from
  {
    if from < |actions| {
      ArtifactsFailFast(exec, actions, from + 1);
    }
  }

  /** A failing run reports the failure of its first failing action; all actions before it succeeded. */
  lemma {:induction false} ArtifactsFirstFailure(exec: AgentExecutor, actions: seq<AgentAction>, from: nat)
    ensures var r := AllArtifacts(exec, actions, from);
      r.Err? ==> exists k ::
        && from <= k < |actions| && ActionArtifacts(exec, actions[k]) == Err(r.error)
        && forall j :: from <= j < k ==> ActionArtifacts(exec, actions[j]).Ok?
    decreases |actions| - from
  {
    if from < |actions| {
      ArtifactsFirstFailure(exec, actions, from + 1);
    }
  }

  /** `artifacts` followed by the artifacts of `r`, or the failure of `r`. */
  function PrependArtifacts(artifacts: seq<Artifact>, r: Result<seq<Artifact>, Failure>): Result<seq<Artifact>, Failure> {
    match r
    case Ok(rest) => Ok(artifacts + rest)
    case Err(e) => Err(e)
  }

  lemma ArtifactsStep(exec: AgentExecutor, actions: seq<AgentAction>, i: nat, artifacts: seq<Artifact>)
    requires i < |actions|
    ensures var a := ActionArtifacts(exec, actions[i]);
      a.Err? ==> PrependArtifacts(artifacts, AllArtifacts(exec, actions, i)) == a
    ensures var a := ActionArtifacts(exec, actions[i]);
      a.Ok? ==>
        PrependArtifacts(artifacts, AllArtifacts(exec, actions, i)) ==
        PrependArtifacts(artifacts + a.value, AllArtifacts(exec, actions, i + 1))
  {
    var a := ActionArtifacts(exec, actions[i]);
    var rest := AllArtifacts(exec, actions, i + 1);
    if a.Ok? && rest.Ok? {
      assert artifacts + (a.value + rest.value) == artifacts + a.value + rest.value;
    }
  }

  /** `execute_actions`: run the actions in order, stop at the first error. */
  method ExecuteActions(exec: AgentExecutor, actions: seq<AgentAction>) returns (r: Result<seq<Artifact>, Failure>)
    ensures r == AllArtifacts(exec, actions, 0)
  {
    var artifacts: seq<Artifact> := [];
    assert PrependArtifacts(artifacts, AllArtifacts(exec, actions, 0)) == AllArtifacts(exec, actions, 0) by {
      var all := AllArtifacts(exec, actions, 0);
      if all.Ok? {
        assert artifacts + all.value == all.value;
      }
    }
    for i := 0 to |actions|
      invariant PrependArtifacts(artifacts, AllArtifacts(exec, actions, i)) == AllArtifacts(exec, actions, 0)
    {
      ArtifactsStep(exec, actions, i, artifacts);
      match actions[i]
      case CodeExecution(code, language) =>
        var result := exec.sandbox.execute(code, language);
        if result.Err? {
          return Err(Error(result.error));
        }
        artifacts := artifacts + [Artifact(result.value.stdout, PlainText)];
      case FileOperation(_, _) =>
        assert artifacts + [] == artifacts;
      case SearchQuery(query) =>
        var results := exec.vault.search(query, SearchLimit);
        if results.Err? {
          return Err(Error(results.error));
        }
        var content := AppendEntries(exec.formatSimilarity, "",
          "找到 " + NatToString(|results.value|) + " 个相关结果:\n\n", results.value, ArtifactPreviewBytes);
        if content.Err? {
          return Err(content.error);
        }
        artifacts := artifacts + [Artifact(content.value, Markdown)];
    }
    assert artifacts + [] == artifacts;
    return Ok(artifacts);
  }

  // ---------------------------------------------------------------------------
  // execute

  /** What `execute(task)` returns. */
  function Outcome(exec: AgentExecutor, task: AgentTask): Result<AgentResponse, Failure> {
    match exec.vault.search(ContextQuery(task), ContextLimit)
    case Err(m) => Err(Error(m))
    case Ok(context) =>
      match EnhancedPrompt(exec.formatSimilarity, task, context)
      case Err(e) => Err(e)
      case Ok(prompt) =>
        match exec.engine.infer(prompt)
        case Err(m) => Err(Error(m))
        case Ok(response) =>
          var reasoning := Join("", response.tokens);
          var actions := ParsedActions(reasoning, task.instruction);
          match AllArtifacts(exec, actions, 0)
          case Err(e) => Err(e)
          case Ok(artifacts) => Ok(AgentResponse(reasoning, actions, artifacts))
  }

  /**
   * The pipeline in order: the vault is searched once with the context query
   * and limit 5, the engine sees the enhanced prompt, and a response carries the
   * concatenated tokens, the actions parsed from them and their artifacts. A
   * failing search or inference ends the run with its message.
   */
  lemma OutcomePipeline(exec: AgentExecutor, task: AgentTask)
    ensures var found := exec.vault.search(ContextQuery(task), ContextLimit);
      && (found.Err? ==> Outcome(exec, task) == Err(Error(found.error)))
      && (found.Ok? && EnhancedPrompt(exec.formatSimilarity, task, found.value).Ok? ==>
            var answer := exec.engine.infer(EnhancedPrompt(exec.formatSimilarity, task, found.value).value);
            && (answer.Err? ==> Outcome(exec, task) == Err(Error(answer.error)))
            && (answer.Ok? ==>
                  var reasoning := Join("", answer.value.tokens);
                  var actions := ParsedActions(reasoning, task.instruction);
                  && (Outcome(exec, task).Ok? <==> AllArtifacts(exec, actions, 0).Ok?)
                  && (Outcome(exec, task).Ok? ==>
                        Outcome(exec, task).value == AgentResponse(reasoning, actions, AllArtifacts(exec, actions, 0).value))))
  {
  }

  /** `execute(task)`. */
  method Execute(exec: AgentExecutor, task: AgentTask) returns (r: Result<AgentResponse, Failure>)
    ensures r == Outcome(exec, task)
  {
    var contextQuery: string;
    if task.context.Some? {
      contextQuery := task.context.value;
    } else {
      contextQuery := ExtractKeywords(task.instruction);
    }
    var context := exec.vault.search(contextQuery, ContextLimit);
    if context.Err? {
      return Err(Error(context.error));
    }
    var enhancedPrompt := BuildEnhancedPrompt(exec, task, context.value);
    if enhancedPrompt.Err? {
      return Err(enhancedPrompt.error);
    }
    var response := exec.engine.infer(enhancedPrompt.value);
    if response.Err? {
      return Err(Error(response.error));
    }
    var reasoning := Join("", response.value.tokens);
    var actions := ParseActions(reasoning, task.instruction);
    var artifacts := ExecuteActions(exec, actions);
    if artifacts.Err? {
      return Err(artifacts.error);
    }
    return Ok(AgentResponse(reasoning, actions, artifacts.value));
  }
}
