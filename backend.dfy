/**
 * The inference backends of the top-level crate. The llama.cpp backend is a
 * deterministic mock: it reads the user's instruction back out of the prompt
 * and answers from a fixed keyword chain. The MLX and Inferflow backends
 * answer with the words of a fixed template around the prompt.
 */
module Backend {
  import opened Wrappers
  import opened Text
  import opened AgentUtils
  import opened EngineTypes

  const Stop: string := "stop"

  // ---------------------------------------------------------------------------
  // MLX and Inferflow

  /** The simulated answer of the MLX backend. */
  function MlxReply(prompt: string): string {
    "我理解你的指令：\"" + prompt + "\"。\n\n（注意：当前运行在模拟模式下。" + "MLX 后端尚未完成集成，请后续配置模型文件。）"
  }

  /** The simulated answer of the Inferflow backend. */
  function InferflowReply(prompt: string): string {
    "我理解你的指令：\"" + prompt + "\"。\n\n（注意：当前运行在模拟模式下。" + "Inferflow 后端尚未完成集成。）"
  }

  /** `MlxBackend::infer`: the whitespace-split words of its answer; it never fails. */
  function MlxInfer(prompt: string): (r: Result<InferenceResponse, string>)
    ensures r.Ok? && r.value.finishReason == Stop
    ensures forall w :: w in r.value.tokens ==> IsWord(w)
    ensures Words(Join(" ", r.value.tokens)) == r.value.tokens == Words(MlxReply(prompt))
  {
    var tokens := Words(MlxReply(prompt));
    WordsAreWords(MlxReply(prompt));
    WordsJoinSpace(tokens);
    Ok(InferenceResponse(tokens, Stop))
  }

  /** `InferflowBackend::infer`: the whitespace-split words of its answer; it never fails. */
  function InferflowInfer(prompt: string): (r: Result<InferenceResponse, string>)
    ensures r.Ok? && r.value.finishReason == Stop
    ensures forall w :: w in r.value.tokens ==> IsWord(w)
    ensures Words(Join(" ", r.value.tokens)) == r.value.tokens == Words(InferflowReply(prompt))
  {
    var tokens := Words(InferflowReply(prompt));
    WordsAreWords(InferflowReply(prompt));
    WordsJoinSpace(tokens);
    Ok(InferenceResponse(tokens, Stop))
  }

  /** `MlxBackend::is_available`: exactly on macOS (the target is a parameter). */
  function MlxAvailable(isMacos: bool): (r: bool)
    ensures r <==> isMacos
  {
    isMacos
  }

  /** `InferflowBackend::is_available`: never, as no GPU probe exists yet. */
  function InferflowAvailable(): (r: bool)
    ensures !r
  {
    false
  }

  // ---------------------------------------------------------------------------
  // llama.cpp mock: reading the instruction back

  /** The marker the prompt puts before the user's instruction. */
  const InstructionMarker: string := "用户指令:"

  /**
   * The instruction the mock answers: the text after the first marker, up to
   * the next marker and then up to the first line break, trimmed; the whole
   * prompt when there is no marker.
   */
  function UserInstruction(prompt: string): (r: string)
    ensures Find(prompt, InstructionMarker).None? ==> r == prompt
    ensures Find(prompt, InstructionMarker).Some? ==> IsTrimmed(r)
  {
    match Find(prompt, InstructionMarker)
    case None => prompt
    case Some(k) =>
      var piece := Before(prompt[k + |InstructionMarker|..], InstructionMarker);
      Trim(Before(piece, "\n"))
  }

  /** A text cut before the first `p` holds no `p`. */
  lemma BeforeFree(s: string, p: string)
    requires p != []
    ensures !Contains(Before(s, p), p)
  {
    match Find(s, p)
    case None =>
    case Some(e) => BeforeFirstFree(s, p, e);
  }

  /**
   * With a marker in the prompt, the instruction read back is one trimmed line
   * that holds no further marker.
   */
  lemma UserInstructionIsOneLine(prompt: string)
    requires Contains(prompt, InstructionMarker)
    ensures var r := UserInstruction(prompt);
      IsTrimmed(r) && !Contains(r, "\n") && !Contains(r, InstructionMarker)
  {
    var k := Find(prompt, InstructionMarker).value;
    var rest := prompt[k + |InstructionMarker|..];
    var piece := Before(rest, InstructionMarker);
    var line := Before(piece, "\n");
    assert UserInstruction(prompt) == Trim(line);
    BeforeFree(rest, InstructionMarker);
    BeforeFree(piece, "\n");
    SliceFree(piece, InstructionMarker, 0, |line|);
    assert piece[0..|line|] == line;
    TrimFree(line, "\n");
    TrimFree(line, InstructionMarker);
  }

  /** Trimming keeps a text free of `p`. */
  lemma TrimFree(s: string, p: string)
    requires !Contains(s, p)
    ensures !Contains(Trim(s), p)
  {
    var i := TrimSlice(s);
    SliceFree(s, p, i, i + |Trim(s)|);
  }

  /**
   * The line-reading step: after the marker, a line that holds neither a line
   * break nor the marker is read back whole, whatever follows its line break.
   */
  lemma BeforeLine(line: string, tail: string, p: string)
    requires p != [] && '\n' !in p && '\n' !in line && !Contains(line, p)
    ensures Before(Before(line + "\n" + tail, p), "\n") == line
  {
    var s := line + "\n" + tail;
    forall j: nat | j <= |line| ensures !OccursAt(s, p, j) {
      if j + |p| <= |line| {
        assert s[j..j + |p|] == line[j..j + |p|];
        assert !OccursAt(line, p, j);
      } else if j + |p| <= |s| {
        assert s[j..j + |p|][|line| - j] == '\n';
      }
    }
    var piece := Before(s, p);
    assert |piece| > |line| by {
      match Find(s, p)
      case None =>
      case Some(e) => assert !(e <= |line|);
    }
    assert piece[..|line| + 1] == line + "\n";
    assert OccursAt(piece, "\n", |line|);
    forall j: nat | j < |line| ensures !OccursAt(piece, "\n", j) {
      assert piece[j..j + 1] == [line[j]];
    }
    assert Find(piece, "\n") == Some(|line|);
  }

  /** A leading space is lost to trimming. */
  lemma TrimLeadingSpace(s: string)
    ensures Trim(" " + s) == Trim(s)
  {
    assert (" " + s)[1..] == s;
  }

  // ---------------------------------------------------------------------------
  // llama.cpp mock: the answers

  const Greeting: string :=
    "你好！我是 Silo AI，一个隐私优先的本地 Agent 操作系统。" + "我可以帮助你完成各种任务，同时确保你的数据完全保留在本地。"

  /** The answer to an instruction the chain has no case for: the instruction quoted in a template. */
  function EchoReply(instruction: string): string {
    "我理解你的指令：\"" + instruction + "\"。\n\n（注意：当前运行在模拟模式下。"
    + "要使用真实的 AI 模型，" + "请配置模型文件路径并集成 llama.cpp。）"
  }

  const ListingIntro: string := "用户需要列出当前目录下的文件，" + "我将执行以下 Python 代码完成任务：\n\n"
  const ListingCode: string := "import os\n" + "for name in os.listdir('.'):\n" + "    print(name)"
  const ScanIntro: string := "用户需要扫描目录查找 PDF 文件，" + "我将执行以下 Python 代码：\n\n"
  const ScanCode: string :=
    "import os\n" + "import glob\n" + "home = os.path.expanduser('~')\n"
    + "for path in glob.glob(" + "os.path.join(home, " + "'Downloads', '**', '*.pdf'), "
    + "recursive=True):\n" + "    print(path)"

  /** An answer made of an introduction and one fenced python block. */
  function CodeReply(intro: string, code: string): string {
    intro + Fence + "python" + "\n" + code + "\n" + Fence + "\n"
  }

  /** Which case of the keyword chain answers an instruction, in the chain's order. */
  datatype Reply = Greet | Introduce | Listing | Scan | Echo

  function ReplyCase(instruction: string): Reply {
    if Contains(instruction, "你好") || Contains(instruction, "hello") then Greet
    else if Contains(instruction, "介绍") || Contains(instruction, "你是谁") then Introduce
    else if Contains(instruction, "列出") && (Contains(instruction, "目录") || Contains(instruction, "文件")) then Listing
    else if Contains(instruction, "扫描") && Contains(instruction, "PDF") then Scan
    else Echo
  }

  /** The mock's answer to an instruction. */
  function ReplyText(instruction: string): string {
    match ReplyCase(instruction)
    case Greet => Greeting
    case Introduce => Greeting
    case Listing => CodeReply(ListingIntro, ListingCode)
    case Scan => CodeReply(ScanIntro, ScanCode)
    case Echo => EchoReply(instruction)
  }

  /**
   * `LlamaCppBackend::infer` (it reads no field): it never fails and returns the
   * whole answer to the instruction read out of the prompt as its one token.
   */
  function LlamaCppInfer(prompt: string): (r: Result<InferenceResponse, string>)
    ensures r.Ok? && r.value.finishReason == Stop && |r.value.tokens| == 1
    ensures Join("", r.value.tokens) == ReplyText(UserInstruction(prompt))
  {
    Ok(InferenceResponse([ReplyText(UserInstruction(prompt))], Stop))
  }

  /**
   * Each case wins only when no earlier one applies: a greeting keyword beats
   * everything, an introduction keyword beats the listing and scan cases, and
   * the listing case beats the scan case.
   */
  lemma ReplyPrecedence(instruction: string)
    ensures (Contains(instruction, "你好") || Contains(instruction, "hello")) ==> ReplyText(instruction) == Greeting
    ensures (Contains(instruction, "介绍") || Contains(instruction, "你是谁")) ==> ReplyText(instruction) == Greeting
    ensures ReplyCase(instruction) == Listing <==>
      && !Contains(instruction, "你好") && !Contains(instruction, "hello")
      && !Contains(instruction, "介绍") && !Contains(instruction, "你是谁")
      && Contains(instruction, "列出") && (Contains(instruction, "目录") || Contains(instruction, "文件"))
    ensures ReplyCase(instruction) == Scan <==>
      && !Contains(instruction, "你好") && !Contains(instruction, "hello")
      && !Contains(instruction, "介绍") && !Contains(instruction, "你是谁")
      && !(Contains(instruction, "列出") && (Contains(instruction, "目录") || Contains(instruction, "文件")))
      && Contains(instruction, "扫描") && Contains(instruction, "PDF")
  {
  }

  /** `p` does not occur in a text that lacks one of its characters. */
  lemma MissingChar(s: string, p: string, i: nat)
    requires i < |p| && p[i] !in s
    ensures !Contains(s, p)
  {
    forall k: nat | k + |p| <= |s| ensures !OccursAt(s, p, k) {
      assert s[k..k + |p|][i] == s[k + i];
    }
  }

  /** `p` occurs in `s` at `k`. */
  lemma Occurs(s: string, p: string, k: nat)
    requires OccursAt(s, p, k)
    ensures Contains(s, p)
  {
  }

  /** Neither a backtick nor a carriage return. */
  predicate Plain(s: string) {
    forall i | 0 <= i < |s| :: s[i] != '`' && s[i] != '\r'
  }

  lemma PlainAppend(a: string, b: string)
    requires Plain(a) && Plain(b)
    ensures Plain(a + b)
  {
  }

  lemma PlainChars(s: string)
    requires Plain(s)
    ensures '`' !in s && '\r' !in s
  {
  }

  lemma ListingPlain()
    ensures Plain(ListingIntro) && Plain(ListingCode) && IsTrimmed(ListingCode)
  {
    assert Plain("用户需要列出当前目录下的文件，");
    assert Plain("我将执行以下 Python 代码完成任务：\n\n");
    PlainAppend("用户需要列出当前目录下的文件，", "我将执行以下 Python 代码完成任务：\n\n");
    assert Plain("import os\n") && Plain("for name in os.listdir('.'):\n") && Plain("    print(name)");
    PlainAppend("import os\n", "for name in os.listdir('.'):\n");
    PlainAppend("import os\n" + "for name in os.listdir('.'):\n", "    print(name)");
  }

  lemma ListingIntroExecutes()
    ensures ListingIntro[17..19] == "执行"
  {
    assert ListingIntro[17] == '执' && ListingIntro[18] == '行';
  }

  lemma ScanHeadPlain()
    ensures Plain(ScanIntro) && ScanIntro[20..22] == "执行"
    ensures Plain("import os\n") && Plain("import glob\n")
    ensures Plain("home = os.path.expanduser('~')\n")
  {
  }

  lemma ScanLoopPlain()
    ensures Plain("for path in glob.glob(") && Plain("os.path.join(home, ")
    ensures Plain("'Downloads', '**', '*.pdf'), ")
    ensures Plain("recursive=True):\n") && Plain("    print(path)")
  {
  }

  lemma ScanPlain()
    ensures Plain(ScanIntro) && Plain(ScanCode) && IsTrimmed(ScanCode)
    ensures ScanIntro[20..22] == "执行"
  {
    ScanHeadPlain();
    ScanLoopPlain();
    var s := "import os\n";
    PlainAppend(s, "import glob\n");
    s := s + "import glob\n";
    PlainAppend(s, "home = os.path.expanduser('~')\n");
    s := s + "home = os.path.expanduser('~')\n";
    PlainAppend(s, "for path in glob.glob(");
    s := s + "for path in glob.glob(";
    PlainAppend(s, "os.path.join(home, ");
    s := s + "os.path.join(home, ";
    PlainAppend(s, "'Downloads', '**', '*.pdf'), ");
    s := s + "'Downloads', '**', '*.pdf'), ";
    PlainAppend(s, "recursive=True):\n");
    s := s + "recursive=True):\n";
    PlainAppend(s, "    print(path)");
    s := s + "    print(path)";
    assert s == ScanCode;
  }

  /** An answer with `p` in its introduction contains `p`. */
  lemma IntroOccurs(intro: string, code: string, p: string, k: nat)
    requires OccursAt(intro, p, k)
    ensures Contains(CodeReply(intro, code), p)
  {
    var reply := CodeReply(intro, code);
    assert reply[k..k + |p|] == intro[k..k + |p|];
    Occurs(reply, p, k);
  }

  /**
   * The listing answer holds "执行" and one fenced block tagged python, whose
   * code is what `extract_code_block` returns.
   */
  lemma ListingReplyCarriesCode()
    ensures Contains(CodeReply(ListingIntro, ListingCode), "执行")
    ensures ExtractCodeBlock(CodeReply(ListingIntro, ListingCode)) == Some(ListingCode)
  {
    ListingPlain();
    ListingIntroExecutes();
    PlainChars(ListingIntro);
    PlainChars(ListingCode);
    IntroOccurs(ListingIntro, ListingCode, "执行", 17);
    CodeBlockRoundTrip(ListingIntro, "python", ListingCode, "\n");
  }

  /**
   * The scan answer holds "执行" and one fenced block tagged python, whose
   * code is what `extract_code_block` returns.
   */
  lemma ScanReplyCarriesCode()
    ensures Contains(CodeReply(ScanIntro, ScanCode), "执行")
    ensures ExtractCodeBlock(CodeReply(ScanIntro, ScanCode)) == Some(ScanCode)
  {
    ScanPlain();
    PlainChars(ScanIntro);
    PlainChars(ScanCode);
    IntroOccurs(ScanIntro, ScanCode, "执行", 20);
    CodeBlockRoundTrip(ScanIntro, "python", ScanCode, "\n");
  }

  /** `LlamaCppBackend::is_available`: the CPU backend is always available. */
  function LlamaCppAvailable(): (r: bool)
    ensures r
  {
    true
  }

  /** The state of `LlamaCppBackend`: whether it was initialised and the model it found. */
  class LlamaCppBackend {
    var initialized: bool
    var modelPath: Option<string>

    /** `LlamaCppBackend::new()`. */
    constructor()
      ensures !initialized && modelPath == None
    {
      initialized := false;
      modelPath := None;
    }

    /**
     * `initialize(config)`: always succeeds and marks the backend initialised;
     * the model path is recorded only when the file exists (whether it does
     * is a parameter), otherwise the old one stays.
     */
    method Initialize(config: InferenceConfig, modelExists: bool) returns (r: Result<(), string>)
      modifies this
      ensures r.Ok? && initialized
      ensures modelPath == if modelExists then Some(config.modelPath) else old(modelPath)
    {
      if !modelExists {
        initialized := true;
        return Ok(());
      }
      modelPath := Some(config.modelPath);
      initialized := true;
      return Ok(());
    }
  }
}
