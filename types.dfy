/** The agent's task, action, artifact and response records. */
module AgentTypes {
  import opened Wrappers

  /** `AgentTask`: the user's instruction and an optional explicit retrieval query. */
  datatype AgentTask = AgentTask(instruction: string, context: Option<string>)

  /** `AgentAction`. */
  datatype AgentAction =
    | FileOperation(path: string, operation: string)
    | CodeExecution(code: string, language: string)
    | SearchQuery(query: string)

  /** `Artifact`: a produced text and its MIME type. */
  datatype Artifact = Artifact(content: string, mimeType: string)

  /** The actions that produce an artifact, in order. */
  function Productive(actions: seq<AgentAction>): seq<AgentAction> {
    if actions == [] then []
    else (if actions[0].FileOperation? then [] else [actions[0]]) + Productive(actions[1..])
  }

  /** `AgentResponse`. */
  datatype AgentResponse = AgentResponse(reasoning: string, actions: seq<AgentAction>, artifacts: seq<Artifact>)
}

/** The vault's records and its search service. */
module VaultTypes {
  import opened Wrappers

  /**
   * `DocumentMetadata`. The file path is carried as its text; the creation
   * time as an opaque number.
   */
  datatype DocumentMetadata = DocumentMetadata(
    filePath: Option<string>, mimeType: Option<string>, createdAt: int, tags: seq<string>)

  /** `Document`. */
  datatype Document = Document(id: string, content: string, metadata: DocumentMetadata)

  /** `SearchResult`: a document and its similarity score (an `f32` in the source). */
  datatype SearchResult = SearchResult(document: Document, similarity: real)

  /**
   * `VaultDatabase` as the agent sees it: `search(query, limit)` returns
   * results or fails with a message. How results are ranked is not modelled.
   */
  datatype VaultDatabase = VaultDatabase(search: (string, nat) -> Result<seq<SearchResult>, string>)
}

/** The inference engine's records and its service. */
module EngineTypes {
  import opened Wrappers

  /** `BackendType`. */
  datatype BackendType = MlxSidecar | InferflowCpp | LlamaCppCpu | Swarm

  /** `InferenceConfig`; the model path as its text, the `f32` settings as reals. */
  datatype InferenceConfig = InferenceConfig(
    modelPath: string, backend: BackendType, contextSize: nat, temperature: real, topP: real)

  /** `InferenceResponse`: the generated tokens and why generation stopped. */
  datatype InferenceResponse = InferenceResponse(tokens: seq<string>, finishReason: string)

  /** `EngineManager` as the agent sees it: `infer(prompt)` answers or fails with a message. */
  datatype EngineManager = EngineManager(infer: string -> Result<InferenceResponse, string>)
}

/** The sandbox's result record and its service. */
module SandboxTypes {
  import opened Wrappers

  /** `ExecutionResult`; `exitCode` is an `i32` in the source. */
  datatype ExecutionResult = ExecutionResult(stdout: string, stderr: string, exitCode: int)

  /** `SandboxExecutor` as the agent sees it: `execute(code, language)`. */
  datatype SandboxExecutor = SandboxExecutor(execute: (string, string) -> Result<ExecutionResult, string>)
}
