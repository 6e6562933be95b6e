/**
 * The llama.cpp mock backend of the `silo` crate: it answers only once
 * initialised, matches keywords anywhere in the prompt, and splits its answer
 * into whitespace-separated tokens.
 */
module SiloBackend {
  import opened Wrappers
  import opened Text
  import opened EngineTypes
  import Backend

  const NotInitialized: string := "Backend not initialized"

  const HelpReply: string :=
    "我可以帮助你：\n1. 执行代码任务\n2. 搜索本地文档\n" + "3. 管理文件\n4. 回答基于本地知识库的问题\n\n"
    + "所有操作都在本地完成，确保数据隐私。"

  /** The mock's answer: the greeting, the help text, or the whole prompt quoted in a template. */
  function ReplyText(prompt: string): string {
    if Contains(prompt, "你好") || Contains(prompt, "hello") then Backend.Greeting
    else if Contains(prompt, "帮助") || Contains(prompt, "help") then HelpReply
    else Backend.EchoReply(prompt)
  }

  /**
   * A greeting keyword wins over a help keyword; the help text needs a help
   * keyword and no greeting keyword; every other prompt is echoed whole.
   */
  lemma ReplyPrecedence(prompt: string)
    ensures Contains(prompt, "你好") || Contains(prompt, "hello") <==> ReplyText(prompt) == Backend.Greeting
    ensures ReplyText(prompt) == HelpReply <==>
      && !Contains(prompt, "你好") && !Contains(prompt, "hello")
      && (Contains(prompt, "帮助") || Contains(prompt, "help"))
    ensures ReplyText(prompt) == Backend.EchoReply(prompt) <==>
      && !Contains(prompt, "你好") && !Contains(prompt, "hello")
      && !Contains(prompt, "帮助") && !Contains(prompt, "help")
  {
    var g, h, e := Backend.Greeting, HelpReply, Backend.EchoReply(prompt);
    assert g[0] == '你' && h[0] == '我' && e[0] == '我';
    assert h[1] == '可' && e[1] == '理';
  }

  /** The state of `LlamaCppBackend` in the `silo` crate. */
  class LlamaCppBackend {
    var initialized: bool
    var modelPath: Option<string>

    /** `LlamaCppBackend::new()`. */
    constructor()
      ensures !initialized && modelPath == None
    {
      initialized := false;
      modelPath := None;
    }

    /**
     * `initialize(config)`: always succeeds and marks the backend initialised;
     * the model path is recorded only when the file exists (whether it does
     * is a parameter), otherwise the old one stays.
     */
    method Initialize(config: InferenceConfig, modelExists: bool) returns (r: Result<(), string>)
      modifies this
      ensures r.Ok? && initialized
      ensures modelPath == if modelExists then Some(config.modelPath) else old(modelPath)
    {
      if !modelExists {
        initialized := true;
        return Ok(());
      }
      modelPath := Some(config.modelPath);
      initialized := true;
      return Ok(());
    }

    /**
     * `infer(prompt)`: fails until the backend is initialised; afterwards it
     * answers with the whitespace-split words of the reply and "stop".
     */
    function Infer(prompt: string): (r: Result<InferenceResponse, string>)
      reads this
      ensures r.Err? <==> !initialized
      ensures r.Err? ==> r.error == NotInitialized
      ensures r.Ok? ==> r.value.finishReason == Backend.Stop && r.value.tokens == Words(ReplyText(prompt))
      ensures r.Ok? ==> forall w :: w in r.value.tokens ==> IsWord(w)
      ensures r.Ok? ==> Words(Join(" ", r.value.tokens)) == r.value.tokens
    {
      if !initialized then Err(NotInitialized)
      else
        var tokens := Words(ReplyText(prompt));
        WordsAreWords(ReplyText(prompt));
        WordsJoinSpace(tokens);
        Ok(InferenceResponse(tokens, Backend.Stop))
    }
  }

  /**
   * The guard as a sequence of calls: a new backend refuses to answer, and
   * after `initialize` the same backend answers the same prompt.
   */
  method InitializeUnlocksInfer(config: InferenceConfig, modelExists: bool, prompt: string)
    returns (before: Result<InferenceResponse, string>, after: Result<InferenceResponse, string>)
    ensures before == Err(NotInitialized)
    ensures after.Ok? && after.value.tokens == Words(ReplyText(prompt))
  {
    var backend := new LlamaCppBackend();
    before := backend.Infer(prompt);
    var _ := backend.Initialize(config, modelExists);
    after := backend.Infer(prompt);
  }
}
