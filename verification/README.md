# AKB48: models and proofs

This project models the parts of the AKB48 agent whose correctness depends on ordering and on
state that several goroutines share, and proves what every run of them keeps. `dafny verify
dfyconfig.toml` checks all of it.

- **Sessions** (`SessionLog`, `SessionStore`, `SessionProofs`, `SessionProgress`, `ContextWindow`,
  `LiveSession`).
  A session lives in memory and in an append-only file. A background compaction snapshots the
  list under the lock, extracts without it, swaps the old prefix for one summary, and only then
  appends a record of the swap, while handlers keep adding and persisting turns and the process
  may crash at any step. The file and the memory agree in every interleaving, because a turn line
  and a compaction record commute as long as the record replaces no more turns than there are.
- **MCP client** (`McpProtocol`, `McpProofs`, `McpProgress`, `McpClient`). Many callers register a channel, check
  the connection, write and wait; one reader routes replies by id and at the end marks the client
  disconnected and drains the waiters, against a server that may repeat, invent or omit ids.
- **Bridge** (`Bridge`). Health checks and restarts over the client.
- **Tools and the tool loop** (`Registry`, `Assembler`, `ToolLoop`, `ToolAnswers`). Prompt assembly, the bounded
  loop over an arbitrary model, and the cache of tool results.
- **Command-line stream** (`CliStream`, `CliEvents`, `CliPipe`). Cumulative text to deltas, then the drain; and
  executor and drain joined by their channel under a context that may end at any step.
- **Chat delivery** (`Utf8`, `Splitter`, `DiscordStream`, `DiscordQueue`, `DiscordDedup`).

Each protocol is a state machine: `Next` is one atomic step, `Run` any sequence of steps, and a
step that is not enabled changes nothing. The classes (`LiveSession.Session`, `McpClient.Client`,
`Bridge.GBrainBridge`, `Registry.ToolRegistry`, `CliStream.LineParser`,
`DiscordQueue.SessionQueues`, `DiscordDedup.Deduplicator`) hold the same state in fields; every
method is proved to take the step of that name and to keep the invariant.

## Premises

- Handlers of one session run one at a time (`DiscordQueue.FifoSingleWorker` shows it for chat
  messages), and a handler returns only after its hooks have, so at most one turn is in memory
  but not yet in the file. Line appends succeed whole. The configuration does not change.
- A handler's turn id is a UUID, which is never of the form "compaction-...".
- A live summary and the same summary replayed differ in id and time and are compared without them.
- `sync.Map.Range` visits a key at most once, visits every key that is present throughout, and may
  or may not visit one that comes or goes meanwhile.
- Registry results are stated for one call after another; the turn ids contain no bar character
  (the separator of the cache key).
- Model replies, tool answers, ticks, clocks, server lines and what the subprocess writes before it
  exits or is killed are parameters, so every statement is about all of them. The end of a context
  is a step that may come at any time in `CliPipe` and a choice of every select in `CliStream`; in
  the tool loop it is one of the failures of a request. In chat delivery text is encoded in UTF-8
  and lengths are in bytes; tokens are whole characters, whitespace is an arbitrary predicate on
  characters, and a byte that belongs to no whole character is shown as U+FFFD, which is no
  whitespace. Elsewhere a string is its bytes.

## Where the code falls short of what is expected of it

- The session design document says the model receives the summary after a restart
  (akb48-prd/PRD-10-session-compaction.md:52). The code keeps at least as many turns as the window
  shows, so the summary stays outside the window: `WindowInvisibleIff` gives the exact condition,
  for every token budget. The window can differ from that of the full history only when
  `max_turns_in_context` is negative, or when a crash lost a turn still to be written and the list
  is no longer than the cap; then it does, unless the budget pays neither for the summary nor for
  the newest turn it replaced (`LossyCrashShowsSummary`).
- The same document says that compaction is skipped when the brain is down (:32, :177), and, of
  the same case, that the turns are still summarised and replaced (:166); the code does the latter.
  It also says that a failed extraction skips compaction (:167) and that the record is written
  before the swap (:87-89). The code compacts then too, with a fallback text, and swaps first.
- Only calls begun before the reader's end are safe: `CallAfterEnd` shows that a call made after
  it and not cancelled waits for ever exactly when the client is marked connected, which only a
  Start that came too late does (`LateStartHappens` is such a run), and the write still goes well.
- A server result that is itself an object of strings and nulls with the key `_mcp_error` is read
  as an error, and a reply with neither result nor error as a disconnection (`ErrorEncodingExact`,
  `DisconnectedExact`).
- Stop does not keep the bridge down before Start has succeeded or while a restart is in flight
  or due (`StopSticksIff`), and the
  doubling waits hold for up to 34 attempts, after which the duration overflows (`BackoffTotal`).
- The loop can send a user message without content, exactly when a reply stops for tools and uses
  none (`EmptyExactly`).
- A turn whose replies have no text at all is stored with an empty answer, and every later request
  with that turn in its window has an empty text block (`BuildHasWords`, `HandleTurn`). A service
  that refuses such blocks then never answers the session again (`EmptyAnswerSticks`).
- A long message is cut at a byte: if no newline comes before the limit, the cut can fall inside a
  character, whose pieces then show as replacement characters in two messages. `SplitKeepsInk`
  and `SendStreaming` say that what is shown is exact if and only if that does not happen,
  `EasyIsExact` when it cannot (one-byte text, or newlines often enough), and `TornStream` gives
  an input: 1999 times 'a' and then 'é'.
- With a negative `max_tool_result_tokens` the first tool use panics, after its tool has run
  (`ToolLoop.Call`).
- When the context of a turn ends, the executor may drop the rest of the stream and close the
  channel, and the drain may take the closed channel rather than the context's end: the turn then
  ends without an error, with a truncated text, or hiding that the process failed.
  `NormalClosesPossible` says exactly what can be lost that way, and `NormalCloseExact` when
  nothing is.
- Handlers purge the duplicate table concurrently, and a purge looks at an entry and removes its
  key in two steps; `RashRemovalHappens` is a run in which a duplicate gets through at once, and
  `RemovalExact` says which removals are harmless. A lock around the purge is enough
  (`SerialPurgesSuffice`).

## Model

| member | source | states |
|---|---|---|
| `SessionLog.LoadFromDisk` | internal/session/session.go:124-188 | the line-by-line rebuild equals the recursive replay of the file, for every file |
| `SessionLog.Conservation` | internal/session/session.go:150-174 | for every file, expanding the summaries of the replayed list gives every persisted turn exactly once and in order, however compactions nest |
| `SessionProofs.TurnAndCompactionCommute` | internal/session/session.go:159-163 | a turn line and a compaction line can be replayed in either order |
| `SessionProofs.CommuteOnlyWithin` | internal/session/session.go:159-163 | they commute if and only if the record replaces no more turns than the list holds |
| `SessionProofs.StepKeepsInv` | internal/session/compaction.go:92-163 | every step of handler, hooks, compactor and crash keeps agreement of file and memory, single flight and the lengths |
| `SessionProofs.FileMatchesMemory` | internal/session/compaction.go:146-163 | in every run replaying the file, with an unlogged swap applied, and adding the at most one unwritten turn gives the list in memory; the clamp never fires, no slice is out of range, at most one compaction is in flight |
| `SessionProofs.CrashConserves` | internal/session/session.go:124-188 | after a crash at any step of any run the reloaded list expands to the full history less the turn not yet written, with at most one summary, in front |
| `SessionProofs.WindowInvisibleIff` | internal/session/manager.go:70-96 | in every run, crashes included, for every token budget, the context window equals that of the never-compacted history if and only if nothing is compacted, or the cap is set and the list is longer than the cap, or a positive budget pays neither for the summary nor for the newest turn it replaced on top of the turns behind it |
| `SessionProofs.CompactionInvisible` | internal/session/manager.go:70-96 | with the cap set and no turn lost to a crash, the windows are equal after every step, whatever the token budget |
| `SessionProofs.ReloadInvisible` | internal/session/session.go:124-188 | they are equal after a reload whenever no turn awaits persistence |
| `SessionProofs.LossyCrashShowsSummary` | internal/session/session.go:158-163 | a run with a crash before a turn is written after which the window differs from that of the history exactly when there is no budget or it pays for the summary or for the turn replaced |
| `SessionProofs.SwapDropsExtracted` | internal/session/compaction.go:93-151 | the swap drops exactly the turns given to the extractor; what is left is one summary, the kept turns and those added since the snapshot, never more than before |
| `SessionProofs.ThresholdGuards` | internal/session/compaction.go:72-77 | in no run does compaction start before the threshold number of turns was added, and never if the threshold is not positive |
| `SessionProgress.CompactionStartsIff` | internal/session/compaction.go:72-88 | in every reachable state the hook starts a compaction if and only if none is in flight, the threshold is positive and that many turns are there |
| `SessionProgress.ExtractionStartsIff` | internal/session/compaction.go:93-106 | a started compaction extracts if and only if there are more turns than it keeps (the cap, or 50), and takes exactly all but those |
| `SessionProgress.CompactionCompletes` | internal/session/compaction.go:92-163 | an undisturbed compaction leaves one summary with the extractor's text, or a count in decimal, in front of the kept turns, its record in the file, and the flag free |
| `SessionProgress.TurnCompletes` | internal/runtime/runtime.go:172-173 | an undisturbed turn ends last in the list and in the file and leaves the session ready for another |
| `SessionProgress.RecordReplayed` | internal/session/session.go:150-164 | a replayed compaction line leaves its summary, text and time, in front of all but the replaced turns, of none if it replaces more than there are |
| `SessionProgress.HistoryIsAdded` | internal/session/session.go:58-63 | without a crash the full history is what was added, in order |
| `ContextWindow.FitIsLongest` | internal/session/manager.go:81-93 | the budgeted window is the longest suffix whose total cost the budget covers |
| `ContextWindow.FitEmpty` | internal/session/manager.go:81-93 | it is empty if and only if there are no turns or the newest alone does not fit |
| `ContextWindow.FitMonotone` | internal/session/manager.go:81-93 | a larger budget never shows fewer turns |
| `ContextWindow.WindowIsLongest` | internal/session/manager.go:77-95 | the window is the longest suffix of the turns that both cap and budget allow |
| `ContextWindow.GetContextTurns` | internal/session/manager.go:70-96 | the loop computes the cap followed by the longest affordable suffix |
| `LiveSession.Session.AddTurn` | internal/session/session.go:58-63 | takes the AddTurn step and keeps the invariant |
| `LiveSession.Session.Persist` | internal/session/manager.go:116-143 | takes the Persist step and keeps the invariant |
| `LiveSession.Session.HookCheck` | internal/session/compaction.go:72-77 | takes the threshold check and keeps the invariant |
| `LiveSession.Session.HookClaim` | internal/session/compaction.go:79-88 | only the winner of the flag starts a goroutine |
| `LiveSession.Session.Snapshot` | internal/session/compaction.go:93-106 | takes the first critical section's step |
| `LiveSession.Session.Swap` | internal/session/compaction.go:135-151 | takes the second critical section's step; its slice is in range whatever ran since the snapshot |
| `LiveSession.Session.WriteRecord` | internal/session/manager.go:99-113 | appends the record of the swap |
| `LiveSession.Session.CrashAndReload` | internal/session/manager.go:38-62 | the reloaded object is the replayed file |
| `LiveSession.Session.ContextTurns` | internal/session/manager.go:70-96 | the window of the compacted session is the window of its full history when the cap is set and no turn was lost |
| `McpProofs.StepKeepsInv` | internal/brain/mcp_client.go:121-205 | every step of callers, reader, drain and server keeps routing safe and every waiter served |
| `McpProofs.NoStrandedCaller` | internal/brain/mcp_client.go:148-158 | once the reader has finished draining every caller still waiting has a signal in its channel |
| `McpProofs.CallAfterEnd` | internal/brain/mcp_client.go:88-92 | after that a new call that is not cancelled stays waiting with an empty channel in every continuation if and only if the client is marked connected, which takes a late Start, and its write succeeds; else it returns at once, told of the disconnection or of the failed write |
| `McpProofs.LateStartHappens` | internal/brain/mcp_client.go:88-92 | a run in which the reader has finished and the client is marked connected |
| `McpProofs.RepliesReachTheirCaller` | internal/brain/mcp_client.go:136-145 | against any server a caller receives a reply with its own id that the server sent, or the disconnect signal, and its outcome is read from that |
| `McpProgress.NewCall` | internal/brain/mcp_client.go:163-187 | in every reachable state a new call waits, registered, if and only if the client is connected and the write goes well, and else leaves with the reason |
| `McpProgress.ReplyIsDelivered` | internal/brain/mcp_client.go:136-145 | a reply to a waiting, registered caller is received by it as sent and read as meant unless it looks like an error, and nobody else is touched |
| `McpProgress.ToldOnlyAfterEnd` | internal/brain/mcp_client.go:148-158 | in every run nobody is told of a disconnection before the stream has ended, and no returned call is still registered |
| `McpProgress.ReturnIsExplained` | internal/brain/mcp_client.go:171-204 | in every run a call ends without a signal only because it was cancelled, could not be encoded, could not be written, or found the client disconnected, each with its own outcome |
| `McpProgress.WaitingCanCancel` | internal/brain/mcp_client.go:201-203 | a waiting call can be cancelled at any time |
| `McpProgress.StopIsFinal` | internal/brain/mcp_client.go:96-113 | once started and stopped a client stays disconnected in every run |
| `McpProgress.LookalikeRead` | internal/brain/mcp_client.go:195-199 | a result that looks like an error is read as the text under the key, a null as the empty text |
| `McpProofs.ReaderNeverBlocks` | internal/brain/mcp_client.go:136-158 | each channel takes at most one send ever, each send finds it empty, and the drain can always go on |
| `McpProofs.IdsAreFresh` | internal/brain/mcp_client.go:163-165 | a new call's id belongs to no earlier call |
| `McpProofs.ErrorEncodingExact` | internal/brain/mcp_client.go:137-144 | the caller reads what the server meant, as section 5 of the JSON-RPC 2.0 Specification has it, if and only if a result is not itself an object of strings and nulls with the error key |
| `McpProofs.DisconnectedExact` | internal/brain/mcp_client.go:190-193 | a caller is told of a disconnection exactly on the disconnect signal or a reply with neither result nor error |
| `McpClient.Client.Alloc` | internal/brain/mcp_client.go:163-164 | a fresh id with an empty channel |
| `McpClient.Client.CheckAndWrite` | internal/brain/mcp_client.go:178-187 | the locked check of the connection and the write |
| `McpClient.Client.Send` | internal/brain/mcp_client.go:137-144 | the routed reply is sent into an empty channel |
| `McpClient.Client.DrainVisit` | internal/brain/mcp_client.go:154-158 | the drain's signal is sent into an empty channel |
| `McpClient.Client.DrainEnd` | internal/brain/mcp_client.go:154-159 | when the drain ends every waiting caller has a signal |
| `Bridge.AttemptRestart` | internal/brain/bridge.go:159-198 | publishes exactly at the first attempt that lists the tools after failures only, gives up exactly when all fail, and has waited out the backoff of each attempt made |
| `Bridge.BackoffTotal` | internal/brain/bridge.go:165-173 | m attempts wait 2^m - 1 seconds in all if and only if m is at most 34, on 64-bit durations |
| `Bridge.SingleFlight` | internal/brain/bridge.go:142-149 | in every run unpublished restarts plus one if available never exceed one, and availability is set no more often than tools/list has succeeded |
| `Bridge.GivingUpIsFinal` | internal/brain/bridge.go:196-198 | after an exhausted restart the bridge stays unavailable for the rest of every run |
| `Bridge.StopSticksIff` | internal/brain/bridge.go:72-75 | after Stop the bridge stays unavailable if and only if it had been started and no restart was in flight or about to start |
| `Bridge.FailedPollRestarts` | internal/brain/bridge.go:142-149 | a failed poll takes an available bridge out of service and starts exactly one restart, which can bring it back; of a bridge that is down it changes nothing |
| `Bridge.UnpublishedIsFinal` | internal/brain/bridge.go:159-198 | a restart that ends without publishing leaves the bridge down for the rest of every run |
| `Bridge.GBrainBridge.PollFailed` | internal/brain/bridge.go:142-149 | a failed poll leads to a restart only when the bridge was available |
| `Registry.KeyExact` | internal/llm/llm.go:80-82 | for turns without a bar keys are equal exactly for the same turn and the same joined text, and one tool's keys tell its inputs apart |
| `Registry.HitIsSound` | internal/tools/tools.go:71-85 | a hit that is not a collision returns the output of an earlier successful run of the same tool on the same input in the same turn |
| `Registry.RunsUnlessSucceeded` | internal/tools/tools.go:87-121 | a handler runs exactly when it is registered and no run with its key succeeded; no tool succeeds twice on one input in one turn |
| `Registry.FreshCallExact` | internal/tools/tools.go:87-121 | a call that is no hit gives the handler's own answer, an error exactly if it is one, from one run; or the complaint about an unknown tool, from none |
| `Registry.RetryExact` | internal/tools/tools.go:71-121 | after a success the same call is answered as before, under its own id and without a run; after a failure it is run again |
| `Registry.CollisionExact` | internal/tools/tools.go:73-79 | the guard fires exactly when another tool succeeded in that turn on an input that joins to the same text, which takes a bar in a tool name |
| `Registry.ToolRegistry.Dispatch` | internal/tools/tools.go:66-122 | the object's call is one step of the registry the lemmas are about |
| `Assembler.TurnsToMessages` | internal/identity/assembler.go:132-141 | turn by turn a user message with the turn's user text and an assistant message with its answer |
| `Assembler.MarkCached` | internal/identity/assembler.go:144-152 | sets the mark on the last block if that is text and changes nothing else |
| `Assembler.Build` | internal/identity/assembler.go:93-128 | without the recalled pair and the mark the messages are, turn by turn, the user's text and the answer; the pair stands in front of the last two turns and carries the recalled text; the mark is on the last message of the cached tier and nowhere else |
| `Assembler.Tier2Grows` | internal/identity/assembler.go:96-102 | while the window, under cap and token budget, drops nothing it dropped nothing before, and the cached tier of the messages built for the longer history extends the old one as a prefix, mark aside and whatever is recalled |
| `ToolLoop.ResultsAnswerUses` | internal/llm/llm.go:249-271 | the results answer the tool uses one for one, by id and in order, unless the output limit is negative and there is a use, which panics |
| `ToolLoop.RunTools` | internal/llm/llm.go:250-271 | the inner loop takes the registry through the uses in order and gives the results that `ResultsCarry` describes, up to a truncation that panics |
| `ToolAnswers.ResultsCarry` | internal/llm/llm.go:249-271 | the block for each use has its id and the output and error flag that the registry gave to that call after those before it; an output over the limit is cut to it and marked |
| `ToolAnswers.PanicAfterFirst` | internal/llm/llm.go:264-267 | under a negative limit the first use is called, its truncation panics and no other is called |
| `ToolAnswers.RequestCarries` | internal/llm/llm.go:242-274 | the request after a reply is the one before, the reply's content, and a user message with exactly one such block for each of its uses |
| `ToolLoop.ChainWellFormed` | internal/llm/llm.go:242-274 | every request of a loop starts and ends with a user message, alternates, and answers each tool use in the very next user message |
| `ToolLoop.EmptyExactly` | internal/llm/llm.go:249-274 | a request contains a message without content if and only if some reply stopped for tools without using one |
| `ToolLoop.Call` | internal/llm/llm.go:130-284 | for every model and every tool: between one and the limit of requests, each going on from the one before with the reply and its answers (so `ChainWellFormed` applies whenever the first is well formed), another one exactly after a reply that stops for tools and does not make it panic; the outcome, the text and the tool count returned, and the registry left |
| `ToolLoop.HandleTurn` | internal/runtime/runtime.go:177-204 | from any context turns and recalled text all requests of the turn are well formed, the first is the assembled history with the user's text, and no text block is empty exactly if no side of a context turn, not the new text and no block of a reply gone on from is |
| `Assembler.BuildHasWords` | internal/identity/assembler.go:93-141 | the messages built have no empty text block if and only if no turn of the window has an empty side |
| `ToolLoop.ChainHasWords` | internal/llm/llm.go:130-275 | the last request has no empty text block if and only if neither the first nor a reply gone on from has one |
| `ToolLoop.EmptyAnswerExactly` | internal/llm/llm.go:219-228 | the answer is empty if and only if no reply had text |
| `ToolAnswers.RoundTextJoins` | internal/llm/llm.go:219-224 | the text of a reply is that of its blocks, in order |
| `ToolAnswers.AnswerIsLatest` | internal/llm/llm.go:225-227 | the answer is the text of the last reply that has any |
| `ToolAnswers.OutcomeExact` | internal/llm/llm.go:229-241 | a loop ends with a failure, a panic or an answer by its last reply, the tool calls being all tool uses of the rounds that went on |
| `ToolAnswers.StoredExact` | internal/runtime/runtime.go:159-173 | an answered turn is stored last with the user's text and the answer, and any other not at all |
| `ToolLoop.EmptyAnswerSticks` | internal/runtime/runtime.go:159-174 | if the service refuses empty text blocks and the window has a turn with an empty side, no message is ever answered again and the turns never change |
| `CliStream.LineParser.ParseStreamLine` | internal/llm/claudecli/executor.go:173-243 | one line moves the two carried variables and emits its events as specified, with every slice in range |
| `CliEvents.LineEvents` | internal/llm/claudecli/executor.go:186-242 | an assistant's text comes first and then its tool uses, tool lines give results only, a result line is done exactly on success and else an error |
| `CliEvents.DoneExactly` | internal/llm/claudecli/executor.go:233-236 | a stream says done if and only if one of its lines is a success |
| `CliEvents.ErrorExactly` | internal/llm/claudecli/executor.go:237-238 | it has an error, with that message, if and only if a result line is no success |
| `CliEvents.NamesExact` | internal/llm/claudecli/executor.go:192-217 | its tool uses are those of the assistant lines, block by block |
| `CliEvents.StreamErrorExactly` | internal/llm/claudecli/executor.go:96-123 | what a process gives has an error if and only if a result line says so or it failed without any result line |
| `CliEvents.FailureReachesTurn` | internal/runtime/runtime.go:461-480 | in every run a process that says only success does not fail the turn, and a failure ends as an answer only if the error was abandoned |
| `CliStream.DeltasExact` | internal/llm/claudecli/executor.go:202-216 | for every stream the deltas have the length of the epochs' last texts joined, and are those texts if and only if no emitted piece later changed within its epoch; in particular when text only grows |
| `CliStream.DrainCLIEvents` | internal/runtime/runtime.go:453-506 | on every exit the chunks forwarded are those accumulated, less exactly the last one if its send was cancelled; on a normal close all, and then the closing line if there were tools and room; the tool count is the sum of the counts by name |
| `CliStream.DrainCancels` | internal/runtime/runtime.go:460-474 | a drain is cancelled only by the end of the context in place of an event or a send, and always by it |
| `CliPipe.Execute` | internal/llm/claudecli/executor.go:85-123 | the goroutine sends exactly the stream of the process up to the first send given up for the end of the context, the exit error included |
| `CliPipe.StepKeepsInv` | internal/llm/claudecli/executor.go:96-123 | every step of executor, channel, drain and context keeps what is sent, pending and unread equal to the stream, and the drain where its selects lead |
| `CliPipe.NormalCloseExact` | internal/runtime/runtime.go:461-480 | in every run that closes normally the answer is the whole text if and only if no text was abandoned, an error goes unreported if and only if it was abandoned, and nothing is abandoned unless the context had ended when the channel was closed |
| `CliPipe.WholeUnderLiveContext` | internal/llm/claudecli/executor.go:96-123 | if it had not, the answer over growing text is the last text of every epoch, and a process that failed had said it was done |
| `CliPipe.NormalClosesPossible` | internal/llm/claudecli/executor.go:101-106 | for every stream, a beginning of it is all that some normal close has taken if and only if it holds no error |
| `CliPipe.DrainIsAsSpecified` | internal/runtime/runtime.go:458-481 | in every interleaving a drain that is over has ended as the loop does on the events sent for some choices of its selects |
| `CliPipe.ContextFreesDrain` | internal/runtime/runtime.go:460-474 | in every reachable state the end of the context frees a drain that goes on, in place of an event or of a send, and nothing does before it |
| `Utf8.InkOfCut` | adapters/shared/split.go:13-23 | cutting bytes between characters changes nothing that is shown, cutting inside one always shows more |
| `Utf8.WidthIsLeast` | adapters/shared/split.go:13 | a character takes as few bytes as can hold it, as section 3 of RFC 3629 has it |
| `Splitter.SplitMessage` | adapters/shared/split.go:7-29 | the loop computes the recursive split of the bytes and ends for every limit of at least one |
| `Splitter.CutPreference` | adapters/shared/split.go:14-20 | cuts after the last paragraph break within the limit, else after the last newline, else at the limit, breaks at the very start not counting |
| `Splitter.OnlyHardCutsTear` | adapters/shared/split.go:14-20 | a cut inside a character is at the limit itself and no newline comes before it but at the very start |
| `Splitter.SplitSound` | adapters/shared/split.go:7-29 | at least one part, none of more bytes than the limit, an empty one only in front, and the bytes are the parts in order with only whole whitespace characters between and around them |
| `Splitter.SplitNeat` | adapters/shared/split.go:8-24 | a text within the limit is left as it is, and every part of a longer one is trimmed |
| `Splitter.SplitKeepsInk` | adapters/shared/split.go:22-27 | the parts, each decoded by itself, show exactly the text but for whitespace if no cut falls inside a character, and more if one does |
| `Splitter.WholePartsIff` | adapters/shared/split.go:13-23 | for every text of whole characters all parts are whole characters if and only if no cut falls inside one, that is before a continuation byte |
| `Splitter.EasyIsExact` | adapters/shared/split.go:13-23 | no cut falls inside a character of one-byte text, nor of text with a newline within every limit's length |
| `Splitter.TearHappens` | adapters/shared/split.go:13-23 | a text one byte over the limit whose last character is torn |
| `DiscordStream.EditFinal` | adapters/discord/discord.go:478-498 | the live message and the new ones hold the split text, none longer than the limit in bytes, and show exactly the text if and only if no cut falls inside a character |
| `DiscordStream.SendStreaming` | adapters/discord/discord.go:355-441 | for every order of tokens and ticks and whatever ticks fail, a reader of the messages left sees exactly the non-whitespace content of the stream if and only if no text finalised is cut inside a character, as with one-byte text or frequent newlines; an empty stream leaves one message saying so, and no cursor is left that was not in the stream |
| `DiscordStream.FinalsOfStream` | adapters/discord/discord.go:383-413 | the texts finalised, which the events determine, are consecutive pieces of the stream from its beginning |
| `DiscordStream.OverflowExact` | adapters/discord/discord.go:405-438 | a message is finalised before the close exactly when its text passes 1900 bytes, a successful tick always shows what text there is, and a failed one changes nothing |
| `DiscordStream.TornStream` | adapters/discord/discord.go:405-413 | a stream of one token whose last character is torn |
| `DiscordQueue.FifoSingleWorker` | adapters/discord/discord.go:165-181 | in every run the jobs begun for a session are a prefix of those accepted, in order, one running at a time |
| `DiscordQueue.DropsOnlyWhenFull` | adapters/discord/discord.go:183-187 | a job is dropped exactly when sixteen are queued, and sessions do not affect each other |
| `DiscordQueue.NothingForgotten` | adapters/discord/discord.go:165-188 | jobs accepted and jobs begun are only ever added to |
| `DiscordQueue.AllCanBegin` | adapters/discord/discord.go:174-181 | from every reachable state the worker can go on until all accepted jobs have begun |
| `DiscordQueue.SessionQueues.OfferJob` | adapters/discord/discord.go:183-187 | the send that never blocks |
| `DiscordQueue.SessionQueues.TakeJob` | adapters/discord/discord.go:176-180 | the worker takes the oldest accepted job not yet begun |
| `DiscordDedup.DuplicatesSpaced` | adapters/discord/discord.go:112-125 | in every run in which no removal hits a fresh entry, and in every run in which purges do not overlap on an id, two accepted events with one id are more than the window apart, the later one's acceptance measured from the earlier one's stamp |
| `DiscordDedup.FirstIsAccepted` | adapters/discord/discord.go:115-118 | in every run an id never let through is let through, and one still in the table is not |
| `DiscordDedup.PurgeReadmits` | adapters/discord/discord.go:120-125 | after a purge an id comes in again if and only if its entry is more than five minutes old |
| `DiscordDedup.SerialPurgesSuffice` | adapters/discord/discord.go:120-125 | if no purge looks at an id that another has condemned, no removal ever hits a fresh entry |
| `DiscordDedup.RemovalExact` | adapters/discord/discord.go:120-125 | a removal keeps that spacing if and only if it hits no fresh entry |
| `DiscordDedup.RashRemovalHappens` | adapters/discord/discord.go:120-125 | a run in which two concurrent purges let a duplicate through at once |
| `DiscordDedup.Deduplicator.OnMessage` | adapters/discord/discord.go:115-118 | lets an event through exactly when its id is not in the table |

## Left out

- JSON encoding, file-system failures, torn lines and the scanner's line limit; negative
  `turns_replaced` in a file edited by hand.
- The copy-on-write loop behind the in-progress flag (internal/session/compaction.go:44-65); the
  flag is the cell it is meant to be.
- Sessions other than one: files of different sessions are distinct only for ids without '_'.
- `UpdatedAt` and the cold-session test, metrics and narration hooks, skills, identity files.
- What the summary, the entities and the tool outputs say; whether the brain stored the entities.
- Sizes of messages created by a tick or at the close, which the code does not bound; the doubling
  of the tick interval under rate limits; the typing indicator and the fifteen-second wait.
- Failures of the placeholder, of a final edit or of the closing send: the content is then lost.
- The text of the drain's closing tool line (its counts are modelled) and whether one tool use is
  counted again when a cumulative line repeats it.
- Token usage sums and the streaming events of the API client.
- What is shown of a tool output or a delta that is cut inside a character.
- Request ids and attempt counters that wrap, except the restart backoff; a token limit so large
  that four times it wraps.
- Slash commands, which bypass the session queue, and the Telegram and CLI adapters.
- Registry.RunsUnlessSucceeded: does not model concurrent calls of one key, because the cache is
  read and written in separate steps and both could run; the tool loop makes none, since a turn
  runs its tools one after another and keys of different turns differ (`Registry.KeyExact`).
- Network, subprocesses, configuration loading, environment and logging.
