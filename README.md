# Silo agent core in Dafny

Silo is a privacy-first local agent system. It has two crates: the top-level
one and an earlier desktop (Tauri) one. This project models their
deterministic core and proves properties of it. The model covers five parts.

- **Document chunker** (`DocumentChunker`, module `Chunker`). It has two policies.
  - `chunk_text` slides a window of `chunk_size` words over the text, with
    `chunk_overlap` words shared between neighbours.
  - `chunk_by_paragraphs` groups the non-blank paragraphs greedily under a
    word budget.
- **Agent text utilities** (module `AgentUtils`).
  - Keyword extraction by stop words: at most five tokens, kept only if
    longer than one UTF-8 byte.
  - Extraction of the first fenced code block.
- **Agent orchestration pipeline** of the top-level crate (module `Executor`).
  It runs these steps in order:
  1. derive the retrieval query;
  2. search the vault with limit 5;
  3. build the Chinese prompt, whose context excerpts are cut at 200 bytes;
  4. run inference;
  5. read actions out of the answer by keywords;
  6. run the actions in order, stopping at the first failure.
- **Earlier orchestrator** of the desktop crate (module `TauriExecutor`). It has
  an English prompt, searches the vault only for an explicit context query, and
  its action parser always yields nothing.
- **Mock inference backends**:
  - `Backend` covers the top-level crate's llama.cpp mock. It reads the user's
    instruction back out of the `用户指令:` line of the prompt and answers from
    a keyword chain. The module also has the MLX and Inferflow template
    answers.
  - `SiloBackend` covers the `silo` crate's llama.cpp mock. It guards `infer`
    with an `initialized` flag.
- **Scenarios** (module `Scenarios`). These lemmas connect the pipeline to the
  llama.cpp mock:
  - the instruction written into the prompt is exactly the trimmed instruction
    the mock reads back;
  - "列出当前目录下的文件" meets the hypotheses under which a run yields exactly
    one python `CodeExecution` and its stdout.

The vault, the engine and the sandbox are collaborators. Each is a function
value inside a datatype that returns a result or an error message. Rust's
`panic` on a byte slice that is not on a character boundary is modelled as the
failure `Panic`.

Some operations work by changing state step by step, and those are methods:
- the `chunk_text` and `chunk_by_paragraphs` loops;
- the prompt builders and the `execute_actions` loops;
- the `execute` sequences;
- `initialize` on the backend classes.

Each such method is proved equal to a specification function, and the lemmas
state the properties of those functions.

The scan answer of the llama.cpp mock contains "查找", which is one of the
search triggers of `parse_actions`. So a scan request yields a `SearchQuery`
for the instruction's keywords, when it has any, before the `CodeExecution`.
`Scenarios.ScanActions` and `Scenarios.ScanRun` state this outright. The
listing answer has no search trigger and yields the `CodeExecution` alone.

## Model

| member | source | states |
|---|---|---|
| Chunker.New | silo/src-tauri/src/vault/chunker.rs:11-16 | the chunker keeps exactly the given size and overlap |
| Chunker.Default | silo/src-tauri/src/vault/chunker.rs:78-82 | the default chunker has size 500 and overlap 50 |
| Chunker.DefaultTerminates | silo/src-tauri/src/vault/chunker.rs:78-81 | with the default settings the window loop ends for every text |
| Chunker.NextStartAdvances | silo/src-tauri/src/vault/chunker.rs:27-39 | under the termination condition, each next start lies strictly after the previous start and before the word count |
| Chunker.ChunkTextStalls | silo/src-tauri/src/vault/chunker.rs:27-39 | without the termination condition (words present, more words than `chunk_size`, overlap ≥ size) the first step sends `start` back to 0, so the loop never ends |
| Chunker.WindowsFrom | silo/src-tauri/src/vault/chunker.rs:27-39 | every window is non-empty, lies in range and holds at most `chunk_size` words; the first starts at the given start and the last ends at the final word |
| Chunker.Windows | silo/src-tauri/src/vault/chunker.rs:21-39 | every window lies within the words and is non-empty |
| Chunker.WindowsEmpty | silo/src-tauri/src/vault/chunker.rs:21-25 | there are no windows exactly when the text has no words |
| Chunker.WindowsSpan | silo/src-tauri/src/vault/chunker.rs:27-35 | for a non-empty text the first window starts at word 0, the last ends at the final word, and each holds at most `chunk_size` words |
| Chunker.WindowsOverlap | silo/src-tauri/src/vault/chunker.rs:29-38 | every window but the last holds exactly `chunk_size` words, and the next one starts exactly `chunk_overlap` words before its end |
| Chunker.ChunkSplitsBack | silo/src-tauri/src/vault/chunker.rs:29-30 | a chunk split on whitespace gives back exactly the words of its window |
| Chunker.ChunkMapIndex | silo/src-tauri/src/vault/chunker.rs:29-31 | chunk i is the words of window i joined by single spaces |
| Chunker.ChunkWindows | silo/src-tauri/src/vault/chunker.rs:27-39 | the `while` loop emits exactly one chunk per window, in window order |
| Chunker.ChunkText | silo/src-tauri/src/vault/chunker.rs:19-42 | `chunk_text` is the chunks of the windows over the whitespace-split words |
| Chunker.ChunkTextWords | silo/src-tauri/src/vault/chunker.rs:29-31 | each emitted chunk splits back into its window's words and holds at most `chunk_size` words |
| Chunker.NonBlankMember | silo/src-tauri/src/vault/chunker.rs:46-49 | a piece is kept exactly when it is one of the pieces and is not blank |
| Chunker.NonBlankAppend | silo/src-tauri/src/vault/chunker.rs:46-49 | the filter keeps the paragraphs in their original order |
| Chunker.WordCountAppend | silo/src-tauri/src/vault/chunker.rs:57 | the word count of the growing chunk is the sum of its paragraphs' word counts, because the blank-line separator is whitespace |
| Chunker.AccumulatePartitioned | silo/src-tauri/src/vault/chunker.rs:54-68 | after the loop, the closed chunks followed by the open one hold every paragraph in order; no closed chunk is empty |
| Chunker.AccumulateBounded | silo/src-tauri/src/vault/chunker.rs:57-67 | every chunk of two or more paragraphs stays within `chunk_size` words |
| Chunker.AccumulateGreedy | silo/src-tauri/src/vault/chunker.rs:57-61 | a chunk was closed only because the next paragraph would push it over `chunk_size` |
| Chunker.GroupsPartition | silo/src-tauri/src/vault/chunker.rs:54-72 | the emitted groups are non-empty, concatenate back to the paragraphs, and were split greedily |
| Chunker.GroupsBounded | silo/src-tauri/src/vault/chunker.rs:57-67 | multi-paragraph groups stay within the budget, and a paragraph longer than `chunk_size` forms a group of its own |
| Chunker.OversizedAlone | silo/src-tauri/src/vault/chunker.rs:57-61 | a bounded group that contains an oversized paragraph is that paragraph alone |
| Chunker.GroupNotBlank | silo/src-tauri/src/vault/chunker.rs:58-60 | a group of non-blank paragraphs does not trim to the empty text |
| Chunker.ChunkParagraphs | silo/src-tauri/src/vault/chunker.rs:51-72 | the loop that grows a string chunk emits exactly the trimmed groups of the greedy grouping |
| Chunker.ChunkByParagraphs | silo/src-tauri/src/vault/chunker.rs:45-75 | `chunk_by_paragraphs` is the trimmed greedy groups of the non-blank paragraphs |
| Chunker.ParagraphChunksClean | silo/src-tauri/src/vault/chunker.rs:58-72 | every paragraph chunk is non-empty and trimmed |
| Chunker.GroupChunkWords | silo/src-tauri/src/vault/chunker.rs:57-72 | a group's trimmed chunk has the group's words, and past the budget it is one trimmed paragraph |
| Chunker.ParagraphChunkWords | silo/src-tauri/src/vault/chunker.rs:45-75 | each returned chunk has its group's words, so it holds at most `chunk_size` words unless it is one paragraph that alone is longer |
| Text.Utf8Len | silo/src/agent/utils.rs:15 | a string's UTF-8 length is between one and four bytes per character |
| Text.BytePrefix | src/agent/executor.rs:73-74 | the byte prefix is the character prefix of exactly n bytes, and it is missing exactly when no character boundary falls at byte n |
| Text.Lower | silo/src/agent/utils.rs:14 | lower-casing keeps the length |
| Text.LowerIndex | silo/src/agent/utils.rs:14 | lower-casing maps each character on its own |
| Text.WordsTrim | silo/src-tauri/src/vault/chunker.rs:57-71 | trimming a text keeps its whitespace-separated words |
| Text.Trim | silo/src/agent/utils.rs:39 | the trimmed text has no leading or trailing whitespace, and it is empty exactly when the input is all whitespace |
| Text.Find | silo/src/agent/utils.rs:31-32 | `find` returns the first occurrence, and None only when there is no occurrence |
| Text.WordsAreWords | silo/src-tauri/src/vault/chunker.rs:21 | `split_whitespace` yields non-empty tokens with no whitespace |
| Text.WordsEmptyIff | silo/src-tauri/src/vault/chunker.rs:21-25 | a text has no words exactly when it is all whitespace |
| Text.WordsJoinSpace | silo/src-tauri/src/vault/chunker.rs:30 | words joined by single spaces split back into the same words |
| Text.JoinSplitOn | silo/src-tauri/src/vault/chunker.rs:46-47 | splitting on a separator and joining with it gives the text back |
| Text.NatToStringRoundTrip | src/agent/executor.rs:144 | the decimal rendering of a count reads back as that count |
| AgentUtils.KeywordFilter | silo/src/agent/utils.rs:12-16 | only keywords from the input survive, and there are never more of them than input words |
| AgentUtils.Take | silo/src/agent/utils.rs:17 | `take(n)` keeps the prefix of length min(|ws|, n); the keyword extractor uses n = 5 |
| AgentUtils.ExtractSearchQuery | silo/src/agent/utils.rs:23-26 | the search query equals the extracted keywords for every input |
| AgentUtils.KeywordTokensAreWords | silo/src/agent/utils.rs:12-16 | every kept token is a word of the text and a keyword |
| AgentUtils.ExtractKeywordsTokens | silo/src/agent/utils.rs:12-19 | the result splits back into the kept tokens, in order: at most 5, each a keyword and a word of the input |
| AgentUtils.ExtractKeywordsEmpty | silo/src/agent/utils.rs:12-19 | the result is empty exactly when no word is a keyword; whitespace-only input gives the empty string |
| AgentUtils.LowerNonAscii | silo/src/agent/utils.rs:14 | lower-casing leaves non-ASCII text unchanged |
| AgentUtils.SingleAsciiDropped | silo/src/agent/utils.rs:15 | a one-character ASCII token is never a keyword |
| AgentUtils.SingleNonAsciiKept | silo/src/agent/utils.rs:5-16 | a one-character non-ASCII token that is not a stop word is a keyword |
| AgentUtils.StopWordsIgnoreCase | silo/src/agent/utils.rs:5-15 | example: "The", "IS" and "Should" are dropped, because matching is on the lower-cased token |
| AgentUtils.ExtractCodeBlock | silo/src/agent/utils.rs:29-43 | a block is found exactly when the fenced body is, and the block is trimmed |
| AgentUtils.CodeBlockPresence | silo/src/agent/utils.rs:31-42 | a block is found exactly when the text holds two non-overlapping "```" markers |
| AgentUtils.FencedBodyOf | silo/src/agent/utils.rs:31-33 | the body is the text between the first and second markers |
| AgentUtils.FencedBodyFree | silo/src/agent/utils.rs:31-33 | the fenced body holds no marker |
| AgentUtils.LinesAfterTag | silo/src/agent/utils.rs:35-36 | skipping the first line drops exactly the language-tag line |
| AgentUtils.JoinLines | silo/src/agent/utils.rs:35-38 | rejoining the lines of text without carriage returns with "\n" restores the text |
| AgentUtils.CodeBlockClean | silo/src/agent/utils.rs:33-39 | an extracted block holds no "```" and has no surrounding whitespace |
| AgentUtils.CodeBlockRoundTrip | silo/src/agent/utils.rs:29-40 | text with an intro, a fenced block with a tag line and trimmed code yields exactly that code |
| Executor.ContextQuery | src/agent/executor.rs:33-38 | the query is the task context verbatim when present, else the instruction's keywords |
| Executor.Preview | src/agent/executor.rs:73-77 | content of at most `limit` bytes is kept; longer content becomes its first `limit` bytes plus "..."; it panics exactly when byte `limit` is inside a character |
| Executor.EntriesPanic | src/agent/executor.rs:72-79 | the excerpt listing panics exactly when some excerpt would cut a character |
| Executor.AppendEntries | src/agent/executor.rs:72-79 | the loop appends the numbered entries `[文档 n] (相似度: s)`, or stops with the first panic |
| Executor.EntriesListing | src/agent/executor.rs:72-79 | the listing succeeds exactly when every entry does, and is then every result's entry, numbered from 1, in result order |
| Executor.PromptShape | src/agent/executor.rs:66-84 | the prompt is the preamble and instruction line, a context block, then the closing sentence; the block is empty without results and otherwise is the header followed by every result's numbered entry with its 200-byte excerpt, in order; it panics exactly when an excerpt would cut a character |
| Executor.BuildEnhancedPrompt | src/agent/executor.rs:66-84 | the `push_str` sequence builds exactly the specified prompt |
| Executor.SearchPart | src/agent/executor.rs:93-100 | a `SearchQuery` of the instruction's keywords is pushed exactly when the lower-cased reasoning holds 搜索, 查找 or "search" and the keywords are non-empty |
| Executor.CodePart | src/agent/executor.rs:102-112 | a python `CodeExecution` of the extracted block is pushed exactly when a code trigger fires and a block exists |
| Executor.ParsedActionsShape | src/agent/executor.rs:86-122 | at most one search followed by at most one python code execution, never a file operation; each appears under its trigger condition, and the code is trimmed and free of markers |
| Executor.ParseActions | src/agent/executor.rs:86-122 | the method's pushes yield exactly the specified actions |
| Executor.SearchReportShape | src/agent/executor.rs:141-158 | the search report is "找到 n 个相关结果:" followed by every result's numbered entry with its 150-byte excerpt, in order, and panics exactly when an excerpt would cut a character |
| Executor.ActionArtifact | src/agent/executor.rs:128-158 | a successful action yields no artifact for a file operation, and otherwise exactly its one artifact |
| Executor.ArtifactsFollowActions | src/agent/executor.rs:124-163 | the artifacts follow the productive actions one to one: plain-text stdout for code, the markdown report of a fresh search with limit 10 for a query |
| Executor.ArtifactsFailFast | src/agent/executor.rs:124-163 | the run fails exactly when one of its actions fails |
| Executor.ArtifactsFirstFailure | src/agent/executor.rs:124-163 | a failing run reports the error of its first failing action, and every action before it succeeded |
| Executor.ExecuteActions | src/agent/executor.rs:124-163 | the loop with early return computes exactly the specified artifacts or failure |
| Executor.OutcomePipeline | src/agent/executor.rs:31-63 | a failed search or inference ends the run with its message; otherwise the response carries the concatenated tokens, the actions parsed from them and their artifacts |
| Executor.Execute | src/agent/executor.rs:31-63 | `execute` computes exactly the specified outcome |
| TauriExecutor.ContextLineOf | silo/src-tauri/src/agent/executor.rs:65-67 | the context lines are one `- <content>` line per result, in result order |
| TauriExecutor.PromptShape | silo/src-tauri/src/agent/executor.rs:60-73 | the prompt starts with "Task: <instruction>" and a blank line, ends with the closing sentence, and has a context block exactly when there are results |
| TauriExecutor.AppendContextLines | silo/src-tauri/src/agent/executor.rs:65-67 | the loop appends exactly the context lines |
| TauriExecutor.BuildEnhancedPrompt | silo/src-tauri/src/agent/executor.rs:60-73 | the `push_str` sequence builds exactly the specified prompt |
| TauriExecutor.ParsedActions | silo/src-tauri/src/agent/executor.rs:75-78 | parsing always yields no actions |
| TauriExecutor.ArtifactsFollowActions | silo/src-tauri/src/agent/executor.rs:80-109 | the artifacts follow the productive actions one to one: plain-text stdout, or "Found n results" as markdown for a search with limit 10 |
| TauriExecutor.ArtifactsFailFast | silo/src-tauri/src/agent/executor.rs:80-109 | the run fails exactly when one of its actions fails |
| TauriExecutor.ArtifactsFirstFailure | silo/src-tauri/src/agent/executor.rs:80-109 | a failing run reports the error of its first failing action |
| TauriExecutor.ExecuteActions | silo/src-tauri/src/agent/executor.rs:80-109 | the `for` loop computes exactly the specified artifacts or failure |
| TauriExecutor.OutcomeShape | silo/src-tauri/src/agent/executor.rs:31-58 | without a context query the vault is never consulted; a failed search or inference ends the run; otherwise the response is the concatenated tokens with no actions and no artifacts |
| TauriExecutor.Execute | silo/src-tauri/src/agent/executor.rs:31-58 | `execute` computes exactly the specified outcome |
| Backend.MlxInfer | src/engine/backend.rs:39-53 | never fails; finish reason "stop"; the tokens are the whitespace-split words of the template around the prompt |
| Backend.InferflowInfer | src/engine/backend.rs:93-107 | never fails; finish reason "stop"; the tokens are the whitespace-split words of the template around the prompt |
| Backend.MlxAvailable | src/engine/backend.rs:74-77 | available exactly on macOS |
| Backend.InferflowAvailable | src/engine/backend.rs:128-132 | never available |
| Backend.LlamaCppAvailable | src/engine/backend.rs:242-245 | always available |
| Backend.UserInstruction | src/engine/backend.rs:170-175 | without the marker the whole prompt is used; with it the result is trimmed |
| Backend.UserInstructionIsOneLine | src/engine/backend.rs:170-175 | with a marker, the instruction read back is one trimmed line that holds no further marker |
| Backend.ReplyPrecedence | src/engine/backend.rs:177-204 | greeting keywords beat everything and introduction keywords beat listing and scan; the listing and scan cases apply exactly when no earlier case does |
| Backend.ListingReplyCarriesCode | src/engine/backend.rs:181-190 | the listing answer says 执行 and its fenced block is exactly the listing code |
| Backend.ScanReplyCarriesCode | src/engine/backend.rs:191-201 | the scan answer says 执行 and its fenced block is exactly the scan code |
| Backend.LlamaCppInfer | src/engine/backend.rs:167-213 | never fails; one token, equal to the whole answer to the instruction read out of the prompt; finish reason "stop" |
| Backend.LlamaCppBackend.constructor | src/engine/backend.rs:143-148 | a new backend is uninitialised and has no model path |
| Backend.LlamaCppBackend.Initialize | src/engine/backend.rs:153-165 | always Ok and sets `initialized`; the model path is recorded only when the file exists |
| SiloBackend.ReplyPrecedence | silo/src/engine/backend.rs:130-136 | the greeting is given exactly for a greeting keyword; the help text needs a help keyword and no greeting keyword; every other prompt is echoed whole |
| SiloBackend.LlamaCppBackend.constructor | silo/src/engine/backend.rs:99-104 | a new backend is uninitialised and has no model path |
| SiloBackend.LlamaCppBackend.Initialize | silo/src/engine/backend.rs:109-120 | always Ok and sets `initialized`; the model path is stored only when the file exists |
| SiloBackend.LlamaCppBackend.Infer | silo/src/engine/backend.rs:123-148 | fails with "Backend not initialized" exactly when uninitialised; otherwise the tokens are the whitespace-split words of the answer and the finish reason is "stop" |
| SiloBackend.InitializeUnlocksInfer | silo/src/engine/backend.rs:123-126 | a new backend refuses to answer, and the same backend answers after `initialize` |
| Scenarios.MarkerAfterPreamble | src/agent/executor.rs:67-68 | the first `用户指令:` in the prompt is the one the instruction line writes, right after the preamble |
| Scenarios.InstructionRoundTrip | src/engine/backend.rs:170-175 | for a one-line instruction without the marker, the mock reads back exactly the trimmed instruction, whatever follows the line |
| Scenarios.PromptReadsBack | src/agent/executor.rs:66-84 | the mock reads the trimmed instruction back out of every built prompt |
| Scenarios.QuietNoSearch | src/agent/executor.rs:94 | text without the characters 搜, 查 or c/C fires no search trigger |
| Scenarios.CodeOnlyActions | src/agent/executor.rs:93-112 | an answer that has no search trigger, says 执行 and holds a block yields exactly one python code execution |
| Scenarios.SearchAndCodeActions | src/agent/executor.rs:93-112 | an answer that says 查找 and 执行 and holds a block yields the keyword search (when there are keywords), then the code |
| Scenarios.ListingActions | src/engine/backend.rs:181-190 | the listing answer yields exactly one python code execution of the listing code |
| Scenarios.ScanActions | src/engine/backend.rs:191-201 | the scan answer yields a search for the instruction's keywords when there are any, then the scan code |
| Scenarios.GreetingActions | src/engine/backend.rs:177-180 | the greeting yields no actions |
| Scenarios.MockRun | src/agent/executor.rs:31-63 | with the llama.cpp mock as engine, the reasoning is the mock's answer to the trimmed instruction, and the run ends as running its actions does |
| Scenarios.ListingRun | src/agent/executor.rs:31-63 | a listing instruction runs the listing code once, and the response is the listing answer, that one action and its stdout, or the sandbox's error |
| Scenarios.OneCodeArtifacts | src/agent/executor.rs:129-136 | one code execution yields its stdout as plain text, or the sandbox's error |
| Scenarios.ScanRun | src/agent/executor.rs:31-63 | a scan instruction yields the scan answer, the optional search and the scan code, with their artifacts |
| Scenarios.GreetingRun | src/agent/executor.rs:31-63 | a greeting or introduction instruction ends with the greeting and no actions or artifacts |
| Scenarios.ListDirectoryCase | src/engine/backend.rs:181 | example: "列出当前目录下的文件" selects the listing case |
| Scenarios.ListDirectoryQualifies | src/engine/backend.rs:170-190 | "列出当前目录下的文件" is one line, has no marker, and selects the listing case after trimming, so `ListingRun` applies to it |

## Left out

- The sandbox is a collaborator: `SandboxExecutor.execute` is a function value. How it launches `python3` or Wasmtime is not part of this model. Neither is how launch failures become exit-code-1 results (src/sandbox/executor.rs:51-72).
- The vault is a collaborator: `VaultDatabase.search` is a function value. The LanceDB store, ranking and similarity computation are not modelled.
- The inference engine is a collaborator: `EngineManager.infer` is a function value. `EngineManager`'s backend selection (hardware probing, `cfg!`) is not modelled.
- `f32` similarities are carried as `real`. The `{:.2}` rendering is the `formatSimilarity` field of `Executor.AgentExecutor`, so rounding is not modelled.
- Text.Lower: lower-cases ASCII letters only, where Rust's `to_lowercase` maps every cased Unicode character and can change a string's length. The keyword filter still drops and keeps the same tokens. Its stop words hold only ASCII lower-case letters and CJK characters, so a token that contains any other non-ASCII character matches none of them either way. The only non-ASCII characters whose lower-case form contains an ASCII letter are U+212A KELVIN SIGN, which becomes `k`, and U+0130, which becomes `i` followed by U+0307. No stop word contains `k` or U+0307.
- Text.LowerIndex: holds of the ASCII-only `Lower` above; Rust's `to_lowercase` is not character by character for a final capital sigma.
- AgentUtils.LowerNonAscii: holds of the ASCII-only `Lower` above; Rust's `to_lowercase` changes non-ASCII capitals.
- Chunker.ChunkText: requires the termination condition. Without it, `chunk_text` never returns, which `Chunker.ChunkTextStalls` states. A non-terminating method cannot be given here.
- Chunker.ChunkWindows: sizes are unbounded naturals, so the `usize` overflow of `start + chunk_size` near `usize::MAX` is not modelled.
- String positions are character indices, not byte indices. `find` and the slices at its results agree under either count, because UTF-8 is self-synchronising. Byte lengths are explicit wherever the source compares them: `len() > 1`, the 200- and 150-byte previews.
- Whether the model file exists is the `modelExists` parameter of `Initialize`. The file-system check is left out.
- Whether the host is macOS is the parameter of `Backend.MlxAvailable`.
- `infer_stream` and `backend_type` of every backend are left out. The first is channels, spawning and sleeping; the second is a constant.
- Async execution, `RwLock` guards and `tracing` logs are left out. The pipeline is modelled as one sequential run.
- The `AgentExecutor::new` constructors only store their arguments, so they are not modelled.
- The `todo!()` backends (the desktop crate's backend file, and MLX/Inferflow in the `silo` crate) are not modelled.
- The UIs, the Tauri wiring and `AppState`, the swarm and vault sync modules are not modelled.
- Document timestamps are opaque integers and paths are strings.
- The scenario lemmas assume `Scenarios.PromptBuilt`: the context search succeeds and no excerpt cuts a character. When either fails, the run ends earlier, as `Executor.OutcomePipeline` states.
