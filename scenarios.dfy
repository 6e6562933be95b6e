/**
 * The top-level agent driven by the llama.cpp mock: the instruction written
 * into the prompt is the one the mock reads back, and each answer of the mock
 * leads to a known list of actions and artifacts.
 */
module Scenarios {
  import opened Wrappers
  import opened Text
  import opened AgentUtils
  import opened AgentTypes
  import opened VaultTypes
  import opened EngineTypes
  import opened SandboxTypes
  import Executor
  import Backend

  // ---------------------------------------------------------------------------
  // the instruction line

  /** Holds no `指`, the character that tells the marker apart in the preamble. */
  predicate NoZhi(s: string) {
    forall i | 0 <= i < |s| :: s[i] != '指'
  }

  lemma PreambleNoZhi()
    ensures NoZhi(Executor.Preamble)
  {
    assert NoZhi("你是一个本地 AI Agent，名为 Silo。");
    assert NoZhi("你的任务是帮助用户完成各种任务，");
    assert NoZhi("同时确保所有操作都在本地完成，保护用户隐私。\n\n");
  }

  /** `p` is first found at `n` when it occurs there and no earlier position has its `d`-th character. */
  lemma FirstAt(s: string, p: string, n: nat, d: nat)
    requires d < |p| && OccursAt(s, p, n)
    requires forall j :: d <= j < n + d ==> s[j] != p[d]
    ensures Find(s, p) == Some(n)
  {
    forall j: nat | j < n ensures !OccursAt(s, p, j) {
      if j + |p| <= |s| {
        assert s[j..j + |p|][d] == s[j + d];
      }
    }
  }

  /** The first marker of a prompt is the one in its instruction line. */
  lemma MarkerAfterPreamble(instruction: string, tail: string)
    ensures Find(Executor.PromptHead(instruction) + tail, Backend.InstructionMarker) == Some(|Executor.Preamble|)
  {
    var pre, head := Executor.Preamble, Executor.InstructionLabel;
    var rest := head + instruction + "\n\n" + tail;
    var prompt := pre + rest;
    assert Executor.PromptHead(instruction) + tail == prompt;
    var m := Backend.InstructionMarker;
    assert head[..|m|] == m by {
      assert head[0] == m[0] && head[1] == m[1] && head[2] == m[2] && head[3] == m[3] && head[4] == m[4];
    }
    assert prompt[|pre|..|pre| + |m|] == rest[..|m|] == head[..|m|];
    PreambleNoZhi();
    forall j | 2 <= j < |pre| + 2 ensures prompt[j] != m[2] {
      if j < |pre| {
        assert prompt[j] == pre[j];
      } else {
        assert prompt[j] == head[j - |pre|];
      }
    }
    FirstAt(prompt, m, |pre|, 2);
  }

  /** A leading space cannot complete an occurrence of a text that does not start with one. */
  lemma SpacedFree(s: string, p: string)
    requires p != [] && p[0] != ' ' && !Contains(s, p)
    ensures !Contains(" " + s, p)
  {
    var t := " " + s;
    forall j: nat | j + |p| <= |t| ensures !OccursAt(t, p, j) {
      if j == 0 {
        assert t[j..j + |p|][0] == ' ';
      } else {
        assert t[j..j + |p|] == s[j - 1..j - 1 + |p|];
        assert !OccursAt(s, p, j - 1);
      }
    }
  }

  /**
   * The mock reads back exactly the instruction the prompt was built with,
   * trimmed, whatever follows the instruction line, as long as the instruction
   * is one line without the marker.
   */
  lemma InstructionRoundTrip(instruction: string, tail: string)
    requires '\n' !in instruction && !Contains(instruction, Backend.InstructionMarker)
    ensures Backend.UserInstruction(Executor.PromptHead(instruction) + tail) == Trim(instruction)
  {
    var m := Backend.InstructionMarker;
    var prompt := Executor.PromptHead(instruction) + tail;
    var k := |Executor.Preamble|;
    MarkerAfterPreamble(instruction, tail);
    assert m[0] == '用' && '\n' !in m;
    var line := " " + instruction;
    assert prompt[k + |m|..] == line + "\n" + ("\n" + tail);
    SpacedFree(instruction, m);
    Backend.BeforeLine(line, "\n" + tail, m);
    Backend.TrimLeadingSpace(instruction);
  }

  /** The instruction the mock reads out of any prompt built for a one-line instruction without the marker. */
  lemma PromptReadsBack(format: real -> string, task: AgentTask, context: seq<SearchResult>)
    requires '\n' !in task.instruction && !Contains(task.instruction, Backend.InstructionMarker)
    requires Executor.EnhancedPrompt(format, task, context).Ok?
    ensures Backend.UserInstruction(Executor.EnhancedPrompt(format, task, context).value) == Trim(task.instruction)
  {
    var block := Executor.ContextBlock(format, context).value;
    var head := Executor.PromptHead(task.instruction);
    assert Executor.EnhancedPrompt(format, task, context).value == head + (block + Executor.Closing);
    InstructionRoundTrip(task.instruction, block + Executor.Closing);
  }

  // ---------------------------------------------------------------------------
  // the actions read out of the mock's answers

  /** Holds none of the characters the search trigger needs (`搜`, `查`, and `c` in either case). */
  predicate Quiet(s: string) {
    forall i | 0 <= i < |s| :: s[i] != '搜' && s[i] != '查' && s[i] != 'c' && s[i] != 'C'
  }

  lemma QuietAppend(a: string, b: string)
    requires Quiet(a) && Quiet(b)
    ensures Quiet(a + b)
  {
  }

  /** A quiet answer never triggers a search. */
  lemma QuietNoSearch(s: string)
    requires Quiet(s)
    ensures !Executor.SearchTriggered(s)
  {
    var r := Lower(s);
    forall i | 0 <= i < |r| ensures r[i] != '搜' && r[i] != '查' && r[i] != 'c' {
      LowerIndex(s, i);
    }
    Backend.MissingChar(r, "搜索", 0);
    Backend.MissingChar(r, "查找", 0);
    assert "search"[4] == 'c';
    Backend.MissingChar(r, "search", 4);
  }

  /** Lower-casing keeps an occurrence of a text without capital ASCII letters. */
  lemma LowerKeeps(s: string, p: string, k: nat)
    requires OccursAt(s, p, k) && forall i | 0 <= i < |p| :: !('A' <= p[i] <= 'Z')
    ensures Contains(Lower(s), p)
  {
    var r := Lower(s);
    forall i | 0 <= i < |p| ensures r[k + i] == p[i] {
      LowerIndex(s, k + i);
      assert s[k + i] == s[k..k + |p|][i];
    }
    assert r[k..k + |p|] == p;
    Backend.Occurs(r, p, k);
  }

  /** A text without capital ASCII letters in the introduction is kept in the lower-cased answer. */
  lemma CodeReplyKeeps(intro: string, code: string, p: string, k: nat)
    requires k + |p| <= |intro| && intro[k..k + |p|] == p
    requires forall i | 0 <= i < |p| :: !('A' <= p[i] <= 'Z')
    ensures Contains(Lower(Backend.CodeReply(intro, code)), p)
  {
    var reply := Backend.CodeReply(intro, code);
    assert reply[k..k + |p|] == intro[k..k + |p|];
    LowerKeeps(reply, p, k);
  }

  /** An answer built around a quiet introduction and quiet code is quiet. */
  lemma QuietCodeReply(intro: string, code: string)
    requires Quiet(intro) && Quiet(code)
    ensures Quiet(Backend.CodeReply(intro, code))
  {
    assert Quiet(Fence) && Quiet("python") && Quiet("\n");
    var s := intro + Fence;
    QuietAppend(intro, Fence);
    QuietAppend(s, "python");
    s := s + "python";
    QuietAppend(s, "\n");
    s := s + "\n";
    QuietAppend(s, code);
    s := s + code;
    QuietAppend(s, "\n");
    s := s + "\n";
    QuietAppend(s, Fence);
    s := s + Fence;
    QuietAppend(s, "\n");
    s := s + "\n";
    assert s == Backend.CodeReply(intro, code);
  }

  lemma ListingQuiet()
    ensures Quiet(Backend.ListingIntro) && Quiet(Backend.ListingCode)
  {
    assert Quiet("用户需要列出当前目录下的文件，");
    assert Quiet("我将执行以下 Python 代码完成任务：\n\n");
    QuietAppend("用户需要列出当前目录下的文件，", "我将执行以下 Python 代码完成任务：\n\n");
    assert Quiet("import os\n") && Quiet("for name in os.listdir('.'):\n") && Quiet("    print(name)");
    QuietAppend("import os\n", "for name in os.listdir('.'):\n");
    QuietAppend("import os\n" + "for name in os.listdir('.'):\n", "    print(name)");
  }

  /** The answer that lists the directory. */
  function ListingReply(): string {
    Backend.CodeReply(Backend.ListingIntro, Backend.ListingCode)
  }

  /**
   * An answer that names no search trigger, says "执行" and holds a fenced
   * block yields exactly one action, whatever the instruction: that block's
   * code, run as python.
   */
  lemma CodeOnlyActions(reply: string, code: string, instruction: string)
    requires !Executor.SearchTriggered(reply) && Contains(Lower(reply), "执行")
    requires ExtractCodeBlock(reply) == Some(code)
    ensures Executor.ParsedActions(reply, instruction) == [CodeExecution(code, "python")]
  {
  }

  /** The listing answer names no search trigger, says "执行" and carries the listing code. */
  lemma ListingReplyFacts()
    ensures !Executor.SearchTriggered(ListingReply()) && Contains(Lower(ListingReply()), "执行")
    ensures ExtractCodeBlock(ListingReply()) == Some(Backend.ListingCode)
  {
    ListingQuiet();
    QuietCodeReply(Backend.ListingIntro, Backend.ListingCode);
    QuietNoSearch(ListingReply());
    Backend.ListingReplyCarriesCode();
    Backend.ListingIntroExecutes();
    CodeReplyKeeps(Backend.ListingIntro, Backend.ListingCode, "执行", 17);
  }

  /** The listing answer yields exactly one action, whatever the instruction: the listing code, as python. */
  lemma ListingActions(instruction: string)
    ensures Executor.ParsedActions(ListingReply(), instruction) == [CodeExecution(Backend.ListingCode, "python")]
  {
    ListingReplyFacts();
    CodeOnlyActions(ListingReply(), Backend.ListingCode, instruction);
  }

  lemma ScanIntroWords()
    ensures Backend.ScanIntro[8..10] == "查找" && Backend.ScanIntro[20..22] == "执行"
  {
    assert Backend.ScanIntro[8] == '查' && Backend.ScanIntro[9] == '找';
    assert Backend.ScanIntro[20] == '执' && Backend.ScanIntro[21] == '行';
  }

  /** The answer that scans for PDF files. */
  function ScanReply(): string {
    Backend.CodeReply(Backend.ScanIntro, Backend.ScanCode)
  }

  /** The scan answer says "查找" and "执行". */
  lemma ScanReplyFacts()
    ensures Contains(Lower(ScanReply()), "查找") && Contains(Lower(ScanReply()), "执行")
  {
    ScanIntroWords();
    CodeReplyKeeps(Backend.ScanIntro, Backend.ScanCode, "查找", 8);
    CodeReplyKeeps(Backend.ScanIntro, Backend.ScanCode, "执行", 20);
  }

  /**
   * An answer that fires both triggers and holds a fenced block yields a
   * search for the instruction's keywords when there are any, then that
   * block's code, run as python.
   */
  lemma SearchAndCodeActions(reply: string, code: string, instruction: string)
    requires Contains(Lower(reply), "查找") && Contains(Lower(reply), "执行")
    requires ExtractCodeBlock(reply) == Some(code)
    ensures var query := ExtractSearchQuery(instruction);
      Executor.ParsedActions(reply, instruction) ==
        (if query != [] then [SearchQuery(query)] else []) + [CodeExecution(code, "python")]
  {
  }

  /**
   * The scan answer says "查找", which fires the search trigger: it yields a
   * search for the instruction's keywords when there are any, then the scan
   * code, as python.
   */
  lemma ScanActions(instruction: string)
    ensures var query := ExtractSearchQuery(instruction);
      Executor.ParsedActions(ScanReply(), instruction) ==
        (if query != [] then [SearchQuery(query)] else []) + [CodeExecution(Backend.ScanCode, "python")]
  {
    ScanReplyFacts();
    Backend.ScanReplyCarriesCode();
    SearchAndCodeActions(ScanReply(), Backend.ScanCode, instruction);
  }

  lemma GreetingHeadQuiet()
    ensures var a := "你好！我是 Silo AI，一个隐私优先的本地 Agent 操作系统。";
      Quiet(a) && Backend.Plain(a)
  {
  }

  lemma GreetingTailQuiet()
    ensures var b := "我可以帮助你完成各种任务，同时确保你的数据完全保留在本地。";
      Quiet(b) && Backend.Plain(b)
  {
  }

  lemma GreetingQuiet()
    ensures Quiet(Backend.Greeting) && '`' !in Backend.Greeting
  {
    var a, b := "你好！我是 Silo AI，一个隐私优先的本地 Agent 操作系统。", "我可以帮助你完成各种任务，同时确保你的数据完全保留在本地。";
    GreetingHeadQuiet();
    GreetingTailQuiet();
    QuietAppend(a, b);
    Backend.PlainAppend(a, b);
    Backend.PlainChars(a + b);
  }

  /** The greeting yields no action: it holds no search trigger and no fence. */
  lemma GreetingActions(instruction: string)
    ensures Executor.ParsedActions(Backend.Greeting, instruction) == []
  {
    GreetingQuiet();
    QuietNoSearch(Backend.Greeting);
    Backend.MissingChar(Backend.Greeting, Fence, 0);
  }

  // ---------------------------------------------------------------------------
  // whole runs against the mock

  /** The prompt a run builds, when the context search and the excerpts succeed. */
  predicate PromptBuilt(exec: Executor.AgentExecutor, task: AgentTask) {
    var found := exec.vault.search(Executor.ContextQuery(task), Executor.ContextLimit);
    found.Ok? && Executor.EnhancedPrompt(exec.formatSimilarity, task, found.value).Ok?
  }

  /**
   * With the mock as the engine, a run answers the instruction itself: the
   * reasoning is the mock's answer to the trimmed instruction, the actions are
   * read out of that answer, and the run ends as running them does.
   */
  lemma MockRun(exec: Executor.AgentExecutor, task: AgentTask)
    requires exec.engine == EngineManager(Backend.LlamaCppInfer)
    requires '\n' !in task.instruction && !Contains(task.instruction, Backend.InstructionMarker)
    requires PromptBuilt(exec, task)
    ensures var reasoning := Backend.ReplyText(Trim(task.instruction));
      var actions := Executor.ParsedActions(reasoning, task.instruction);
      Executor.Outcome(exec, task) ==
        match Executor.AllArtifacts(exec, actions, 0)
        case Err(e) => Err(e)
        case Ok(artifacts) => Ok(AgentResponse(reasoning, actions, artifacts))
  {
    var context := exec.vault.search(Executor.ContextQuery(task), Executor.ContextLimit).value;
    var prompt := Executor.EnhancedPrompt(exec.formatSimilarity, task, context).value;
    PromptReadsBack(exec.formatSimilarity, task, context);
    var reasoning := Backend.ReplyText(Trim(task.instruction));
    assert exec.engine.infer(prompt) == Ok(InferenceResponse([reasoning], Backend.Stop));
    assert Join("", [reasoning]) == reasoning;
  }

  /**
   * Asking the mock to list the directory runs the listing code once: the run
   * fails with the sandbox's error, or answers with the listing reply, that one
   * code execution and its standard output as plain text.
   */
  lemma ListingRun(exec: Executor.AgentExecutor, task: AgentTask)
    requires exec.engine == EngineManager(Backend.LlamaCppInfer)
    requires '\n' !in task.instruction && !Contains(task.instruction, Backend.InstructionMarker)
    requires PromptBuilt(exec, task)
    requires Backend.ReplyCase(Trim(task.instruction)) == Backend.Listing
    ensures var run := exec.sandbox.execute(Backend.ListingCode, "python");
      var actions := [CodeExecution(Backend.ListingCode, "python")];
      && (run.Err? ==> Executor.Outcome(exec, task) == Err(Executor.Error(run.error)))
      && (run.Ok? ==>
            Executor.Outcome(exec, task) ==
              Ok(AgentResponse(ListingReply(), actions, [Artifact(run.value.stdout, Executor.PlainText)])))
  {
    MockRun(exec, task);
    assert Backend.ReplyText(Trim(task.instruction)) == ListingReply();
    ListingActions(task.instruction);
    OneCodeArtifacts(exec, Backend.ListingCode);
  }

  /** Running one python code execution yields its standard output as plain text, or the sandbox's error. */
  lemma OneCodeArtifacts(exec: Executor.AgentExecutor, code: string)
    ensures var run := exec.sandbox.execute(code, "python");
      Executor.AllArtifacts(exec, [CodeExecution(code, "python")], 0) ==
        match run
        case Err(m) => Err(Executor.Error(m))
        case Ok(result) => Ok([Artifact(result.stdout, Executor.PlainText)])
  {
    var actions := [CodeExecution(code, "python")];
    assert Executor.AllArtifacts(exec, actions, 1) == Ok([]);
    var run := exec.sandbox.execute(code, "python");
    if run.Ok? {
      assert [Artifact(run.value.stdout, Executor.PlainText)] + [] == [Artifact(run.value.stdout, Executor.PlainText)];
    }
  }

  /**
   * Asking the mock to scan for PDF files searches the vault for the
   * instruction's keywords, when there are any, and runs the scan code.
   */
  lemma ScanRun(exec: Executor.AgentExecutor, task: AgentTask)
    requires exec.engine == EngineManager(Backend.LlamaCppInfer)
    requires '\n' !in task.instruction && !Contains(task.instruction, Backend.InstructionMarker)
    requires PromptBuilt(exec, task)
    requires Backend.ReplyCase(Trim(task.instruction)) == Backend.Scan
    ensures var query := ExtractSearchQuery(task.instruction);
      var actions := (if query != [] then [SearchQuery(query)] else []) + [CodeExecution(Backend.ScanCode, "python")];
      Executor.Outcome(exec, task) ==
        match Executor.AllArtifacts(exec, actions, 0)
        case Err(e) => Err(e)
        case Ok(artifacts) => Ok(AgentResponse(ScanReply(), actions, artifacts))
  {
    MockRun(exec, task);
    ScanActions(task.instruction);
  }

  /** Greeting the mock, or asking who it is, ends with the greeting and nothing to do. */
  lemma GreetingRun(exec: Executor.AgentExecutor, task: AgentTask)
    requires exec.engine == EngineManager(Backend.LlamaCppInfer)
    requires '\n' !in task.instruction && !Contains(task.instruction, Backend.InstructionMarker)
    requires PromptBuilt(exec, task)
    requires Backend.ReplyCase(Trim(task.instruction)) in {Backend.Greet, Backend.Introduce}
    ensures Executor.Outcome(exec, task) == Ok(AgentResponse(Backend.Greeting, [], []))
  {
    MockRun(exec, task);
    GreetingActions(task.instruction);
  }

  // ---------------------------------------------------------------------------
  // concrete instructions

  const ListDirectory: string := "列出当前目录下的文件"

  /** "列出当前目录下的文件" is trimmed. */
  lemma ListDirectoryTrimmed(i: string)
    requires i == ListDirectory
    ensures Trim(i) == i
  {
    assert !IsWhitespace(i[0]) && !IsWhitespace(i[|i| - 1]);
    TrimTrimmed(i);
  }

  /** "列出当前目录下的文件" is one line without the marker. */
  lemma ListDirectoryIsOneLine(i: string)
    requires i == ListDirectory
    ensures '\n' !in i
    ensures !Contains(i, Backend.InstructionMarker)
  {
    assert Backend.InstructionMarker[0] == '用' && '用' !in i;
    Backend.MissingChar(i, Backend.InstructionMarker, 0);
  }

  lemma ListDirectoryNoGreeting(i: string)
    requires i == ListDirectory
    ensures !Contains(i, "你好") && !Contains(i, "hello") && !Contains(i, "介绍") && !Contains(i, "你是谁")
  {
    assert '你' !in i && 'h' !in i && '介' !in i;
    Backend.MissingChar(i, "你好", 0);
    Backend.MissingChar(i, "hello", 0);
    Backend.MissingChar(i, "介绍", 0);
    Backend.MissingChar(i, "你是谁", 0);
  }

  lemma ListDirectoryKeywords(i: string)
    requires i == ListDirectory
    ensures Contains(i, "列出") && Contains(i, "目录")
  {
    assert i[0..2] == "列出" && i[4..6] == "目录";
    Backend.Occurs(i, "列出", 0);
    Backend.Occurs(i, "目录", 4);
  }

  /** Example: the mock lists the directory for "列出当前目录下的文件"; `Backend.ReplyPrecedence` states the chain in general. */
  lemma ListDirectoryCase(i: string)
    requires i == ListDirectory
    ensures Backend.ReplyCase(i) == Backend.Listing
  {
    ListDirectoryNoGreeting(i);
    ListDirectoryKeywords(i);
  }

  /**
   * "列出当前目录下的文件" meets every hypothesis of `ListingRun`: with the
   * mock as the engine, a task with this instruction yields exactly one
   * action, running the listing code, and its output.
   */
  lemma ListDirectoryQualifies(i: string)
    requires i == ListDirectory
    ensures '\n' !in i && !Contains(i, Backend.InstructionMarker)
    ensures Backend.ReplyCase(Trim(i)) == Backend.Listing
  {
    ListDirectoryIsOneLine(i);
    ListDirectoryTrimmed(i);
    ListDirectoryCase(i);
  }
}
