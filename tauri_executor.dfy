/**
 * The earlier `AgentExecutor` of the desktop crate: the same pipeline as the
 * top-level one, with an English prompt, a vault search only for an explicit
 * context query, a `parse_actions` that yields nothing, and a one-line search
 * report.
 */
module TauriExecutor {
  import opened Wrappers
  import opened Text
  import opened AgentTypes
  import opened VaultTypes
  import opened EngineTypes
  import opened SandboxTypes

  /** `AgentExecutor` with its three services. */
  datatype AgentExecutor = AgentExecutor(engine: EngineManager, vault: VaultDatabase, sandbox: SandboxExecutor)

  const ContextLimit: nat := 5
  const SearchLimit: nat := 10
  const TaskLabel: string := "Task: "
  const ContextHeader: string := "Relevant Context:\n"
  const Closing: string := "Please analyze the task " + "and provide a plan with actions."
  const PlainText: string := "text/plain"
  const Markdown: string := "text/markdown"

  // ---------------------------------------------------------------------------
  // build_enhanced_prompt

  /** The context line of one result: `- <content>` and a line break. */
  function ContextLine(result: SearchResult): string {
    "- " + result.document.content + "\n"
  }

  /** One context line per result, in result order. */
  function ContextLines(context: seq<SearchResult>): string {
    if context == [] then ""
    else ContextLine(context[0]) + ContextLines(context[1..])
  }

  /** The context block: empty without results, else the header, the lines and a blank line. */
  function ContextBlock(context: seq<SearchResult>): string {
    if context == [] then "" else ContextHeader + ContextLines(context) + "\n"
  }

  /** `build_enhanced_prompt(task, context)`. */
  function EnhancedPrompt(task: AgentTask, context: seq<SearchResult>): string {
    TaskLabel + task.instruction + "\n\n" + ContextBlock(context) + Closing
  }

  /** The lines of `context[..i]` followed by those of `context[i..]` are the lines of all. */
  lemma {:induction false} ContextLinesSplit(context: seq<SearchResult>, i: nat)
    requires i <= |context|
    ensures ContextLines(context[..i]) + ContextLines(context[i..]) == ContextLines(context)
  {
    if i > 0 {
      assert context[..i][1..] == context[1..][..i - 1];
      assert context[i..] == context[1..][i - 1..];
      ContextLinesSplit(context[1..], i - 1);
    } else {
      assert context[..i] == [];
      assert context[i..] == context;
    }
  }

  /** The lines of one more result end with that result's line. */
  lemma ContextLinesAppend(context: seq<SearchResult>, i: nat)
    requires i < |context|
    ensures ContextLines(context[..i + 1]) == ContextLines(context[..i]) + ContextLine(context[i])
  {
    ContextLinesSplit(context[..i + 1], i);
    assert context[..i + 1][..i] == context[..i];
    assert context[..i + 1][i..] == [context[i]];
    assert ContextLines([context[i]]) == ContextLine(context[i]) + ContextLines([]);
  }

  /**
   * Every result's content has its own line, in result order: the lines are
   * those of the results before it, then `- <content>`, then the rest.
   */
  lemma ContextLineOf(context: seq<SearchResult>, k: nat)
    requires k < |context|
    ensures ContextLines(context) ==
      ContextLines(context[..k]) + ContextLine(context[k]) + ContextLines(context[k + 1..])
  {
    ContextLinesSplit(context, k);
    assert context[k..][0] == context[k] && context[k..][1..] == context[k + 1..];
    var before, after := ContextLines(context[..k]), ContextLines(context[k + 1..]);
    assert before + (ContextLine(context[k]) + after) == before + ContextLine(context[k]) + after;
  }

  /**
   * The prompt starts with the task line and a blank line and ends with the
   * closing sentence; between them is the context block, which is empty
   * exactly when there are no results.
   */
  lemma PromptShape(task: AgentTask, context: seq<SearchResult>)
    ensures var head := TaskLabel + task.instruction + "\n\n";
      var prompt := EnhancedPrompt(task, context);
      && |prompt| == |head| + |ContextBlock(context)| + |Closing|
      && prompt[..|head|] == head
      && prompt[|prompt| - |Closing|..] == Closing
      && (ContextBlock(context) == [] <==> context == [])
  {
    var head := TaskLabel + task.instruction + "\n\n";
    var prompt := EnhancedPrompt(task, context);
    assert prompt == head + ContextBlock(context) + Closing;
    assert prompt[..|head|] == head;
    assert prompt[|prompt| - |Closing|..] == Closing;
  }

  /** The loop of `build_enhanced_prompt`: one `- <content>` line per result. */
  method AppendContextLines(text: string, context: seq<SearchResult>) returns (out: string)
    ensures out == text + ContextLines(context)
  {
    out := text;
    for i := 0 to |context|
      invariant out == text + ContextLines(context[..i])
    {
      var line := "- " + context[i].document.content + "\n";
      assert line == ContextLine(context[i]);
      ContextLinesAppend(context, i);
      assert out + line == text + (ContextLines(context[..i]) + line);
      out := out + line;
    }
    assert context[..|context|] == context;
  }

  /** `build_enhanced_prompt`, appending to the prompt piece by piece. */
  method BuildEnhancedPrompt(task: AgentTask, context: seq<SearchResult>) returns (prompt: string)
    ensures prompt == EnhancedPrompt(task, context)
  {
    prompt := TaskLabel + task.instruction + "\n\n";
    if |context| > 0 {
      ghost var head := prompt;
      prompt := AppendContextLines(prompt + ContextHeader, context);
      prompt := prompt + "\n";
      ghost var lines := ContextLines(context);
      assert prompt == head + ContextHeader + lines + "\n";
      assert ContextBlock(context) == ContextHeader + lines + "\n";
    }
    prompt := prompt + Closing;
  }

  // ---------------------------------------------------------------------------
  // parse_actions and execute_actions

  /** `parse_actions`: no action is ever read out of the reasoning yet. */
  function ParsedActions(reasoning: string): (actions: seq<AgentAction>)
    ensures actions == []
  {
    []
  }

  /** The artifacts of one action: stdout as plain text, a markdown result count, or none. */
  function ActionArtifacts(exec: AgentExecutor, action: AgentAction): Result<seq<Artifact>, string> {
    match action
    case CodeExecution(code, language) =>
      (match exec.sandbox.execute(code, language)
       case Err(m) => Err(m)
       case Ok(result) => Ok([Artifact(result.stdout, PlainText)]))
    case FileOperation(_, _) => Ok([])
    case SearchQuery(query) =>
      (match exec.vault.search(query, SearchLimit)
       case Err(m) => Err(m)
       case Ok(results) => Ok([Artifact("Found " + NatToString(|results|) + " results", Markdown)]))
  }

  /** The artifacts of `actions[from..]` in action order; the first failure ends the run. */
  function AllArtifacts(exec: AgentExecutor, actions: seq<AgentAction>, from: nat): Result<seq<Artifact>, string>
    decreases |actions| - from
  {
    if from >= |actions| then Ok([])
    else
      match ActionArtifacts(exec, actions[from])
      case Err(e) => Err(e)
      case Ok(these) =>
        match AllArtifacts(exec, actions, from + 1)
        case Err(e) => Err(e)
        case Ok(rest) => Ok(these + rest)
  }

  /**
   * Artifacts follow action order: one per code execution (plain-text stdout)
   * and one per search (a markdown result count), none for file operations.
   */
  lemma {:induction false} ArtifactsFollowActions(exec: AgentExecutor, actions: seq<AgentAction>, from: nat)
    requires from <= |actions|
    ensures var r := AllArtifacts(exec, actions, from);
      var p := Productive(actions[from..]);
      r.Ok? ==> |r.value| == |p| && forall k :: 0 <= k < |p| ==>
        && (p[k].CodeExecution? ==>
              && exec.sandbox.execute(p[k].code, p[k].language).Ok?
              && r.value[k] == Artifact(exec.sandbox.execute(p[k].code, p[k].language).value.stdout, PlainText))
        && (p[k].SearchQuery? ==>
              && exec.vault.search(p[k].query, SearchLimit).Ok?
              && r.value[k] == Artifact("Found " + NatToString(|exec.vault.search(p[k].query, SearchLimit).value|) + " results", Markdown))
    decreases |actions| - from
  {
    if from < |actions| {
      ArtifactsFollowActions(exec, actions, from + 1);
      assert actions[from..][1..] == actions[from + 1..];
      var r := AllArtifacts(exec, actions, from);
      if r.Ok? {
        var p := Productive(actions[from..]);
        var rest := AllArtifacts(exec, actions, from + 1).value;
        var these := ActionArtifacts(exec, actions[from]).value;
        assert r.value == these + rest;
        if actions[from].FileOperation? {
          assert p == Productive(actions[from + 1..]);
        } else {
          assert p == [actions[from]] + Productive(actions[from + 1..]);
          forall k | 1 <= k < |p| ensures r.value[k] == rest[k - 1] && p[k] == Productive(actions[from + 1..])[k - 1] {
          }
        }
      }
    }
  }

  /** Fail-fast: a run fails exactly when one of its actions fails. */
  lemma {:induction false} ArtifactsFailFast(exec: AgentExecutor, actions: seq<AgentAction>, from: nat)
    ensures var r := AllArtifacts(exec, actions, from);
      r.Err? <==> exists k :: from <= k < |actions| && ActionArtifacts(exec, actions[k]).Err?
    decreases |actions| - from
  {
    if from < |actions| {
      ArtifactsFailFast(exec, actions, from + 1);
    }
  }

  /** A failing run reports the failure of its first failing action; all actions before it succeeded. */
  lemma {:induction false} ArtifactsFirstFailure(exec: AgentExecutor, actions: seq<AgentAction>, from: nat)
    ensures var r := AllArtifacts(exec, actions, from);
      r.Err? ==> exists k ::
        && from <= k < |actions| && ActionArtifacts(exec, actions[k]) == Err(r.error)
        && forall j :: from <= j < k ==> ActionArtifacts(exec, actions[j]).Ok?
    decreases |actions| - from
  {
    if from < |actions| {
      ArtifactsFirstFailure(exec, actions, from + 1);
    }
  }

  /** `artifacts` followed by the artifacts of `r`, or the failure of `r`. */
  function PrependArtifacts(artifacts: seq<Artifact>, r: Result<seq<Artifact>, string>): Result<seq<Artifact>, string> {
    match r
    case Ok(rest) => Ok(artifacts + rest)
    case Err(e) => Err(e)
  }

  lemma ArtifactsStep(exec: AgentExecutor, actions: seq<AgentAction>, i: nat, artifacts: seq<Artifact>)
    requires i < |actions|
    ensures var a := ActionArtifacts(exec, actions[i]);
      a.Err? ==> PrependArtifacts(artifacts, AllArtifacts(exec, actions, i)) == a
    ensures var a := ActionArtifacts(exec, actions[i]);
      a.Ok? ==>
        PrependArtifacts(artifacts, AllArtifacts(exec, actions, i)) ==
        PrependArtifacts(artifacts + a.value, AllArtifacts(exec, actions, i + 1))
  {
    var a := ActionArtifacts(exec, actions[i]);
    var rest := AllArtifacts(exec, actions, i + 1);
    if a.Ok? && rest.Ok? {
      assert artifacts + (a.value + rest.value) == artifacts + a.value + rest.value;
    }
  }

  /** `execute_actions`: run the actions in order, stop at the first error. */
  method ExecuteActions(exec: AgentExecutor, actions: seq<AgentAction>) returns (r: Result<seq<Artifact>, string>)
    ensures r == AllArtifacts(exec, actions, 0)
  {
    var artifacts: seq<Artifact> := [];
    assert PrependArtifacts(artifacts, AllArtifacts(exec, actions, 0)) == AllArtifacts(exec, actions, 0) by {
      var all := AllArtifacts(exec, actions, 0);
      if all.Ok? {
        assert artifacts + all.value == all.value;
      }
    }
    for i := 0 to |actions|
      invariant PrependArtifacts(artifacts, AllArtifacts(exec, actions, i)) == AllArtifacts(exec, actions, 0)
    {
      ArtifactsStep(exec, actions, i, artifacts);
      match actions[i]
      case CodeExecution(code, language) =>
        var result := exec.sandbox.execute(code, language);
        if result.Err? {
          return Err(result.error);
        }
        artifacts := artifacts + [Artifact(result.value.stdout, PlainText)];
      case FileOperation(_, _) =>
        assert artifacts + [] == artifacts;
      case SearchQuery(query) =>
        var results := exec.vault.search(query, SearchLimit);
        if results.Err? {
          return Err(results.error);
        }
        artifacts := artifacts + [Artifact("Found " + NatToString(|results.value|) + " results", Markdown)];
    }
    assert artifacts + [] == artifacts;
    return Ok(artifacts);
  }

  // ---------------------------------------------------------------------------
  // execute

  /** The retrieved context: searched with limit 5 for an explicit context query, else empty. */
  function Context(exec: AgentExecutor, task: AgentTask): Result<seq<SearchResult>, string> {
    match task.context
    case Some(query) => exec.vault.search(query, ContextLimit)
    case None => Ok([])
  }

  /** What `execute(task)` returns. */
  function Outcome(exec: AgentExecutor, task: AgentTask): Result<AgentResponse, string> {
    match Context(exec, task)
    case Err(m) => Err(m)
    case Ok(context) =>
      match exec.engine.infer(EnhancedPrompt(task, context))
      case Err(m) => Err(m)
      case Ok(response) =>
        var actions := ParsedActions(Join("", response.tokens));
        match AllArtifacts(exec, actions, 0)
        case Err(m) => Err(m)
        case Ok(artifacts) => Ok(AgentResponse(Join("", response.tokens), actions, artifacts))
  }

  /**
   * Without an explicit context query the vault is not consulted: the outcome
   * is the same whatever the vault. A response carries the concatenated tokens
   * and no actions or artifacts; the run fails exactly when the context search
   * or the inference fails, with its message.
   */
  lemma OutcomeShape(exec: AgentExecutor, task: AgentTask, other: VaultDatabase)
    ensures task.context.None? ==> Outcome(exec, task) == Outcome(exec.(vault := other), task)
    ensures var found := Context(exec, task);
      && (found.Err? ==> Outcome(exec, task) == Err(found.error))
      && (found.Ok? ==>
            var answer := exec.engine.infer(EnhancedPrompt(task, found.value));
            && (answer.Err? ==> Outcome(exec, task) == Err(answer.error))
            && (answer.Ok? ==> Outcome(exec, task) == Ok(AgentResponse(Join("", answer.value.tokens), [], []))))
  {
  }

  /** `execute(task)`. */
  method Execute(exec: AgentExecutor, task: AgentTask) returns (r: Result<AgentResponse, string>)
    ensures r == Outcome(exec, task)
  {
    var context: seq<SearchResult>;
    if task.context.Some? {
      var found := exec.vault.search(task.context.value, ContextLimit);
      if found.Err? {
        return Err(found.error);
      }
      context := found.value;
    } else {
      context := [];
    }
    var enhancedPrompt := BuildEnhancedPrompt(task, context);
    var response := exec.engine.infer(enhancedPrompt);
    if response.Err? {
      return Err(response.error);
    }
    var actions := ParsedActions(Join("", response.value.tokens));
    var artifacts := ExecuteActions(exec, actions);
    return match artifacts
      case Err(m) => Err(m)
      case Ok(produced) => Ok(AgentResponse(Join("", response.value.tokens), actions, produced));
  }
}
