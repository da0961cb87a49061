# n8n-openai-cli-gateway: a verified model

A Dafny model of the gateway's hard core: the engine that drives a request over configured models and their
fallbacks, the stream and protocol plumbing between child processes and clients, the stores that keep running
totals, and the life cycles and codecs of agent runs. I/O, clocks, randomness and the answers of providers are
oracle values; what the modelled functions decide themselves is modelled branch by branch. "Left out" at the end
says what of these files is not modelled.

JavaScript runs one callback at a time, so every method of the classes below is one uninterrupted step between
two awaits. `Run`, `RunTurn`, `RunStream` and similar drivers take any list of steps, so their contracts hold for
every interleaving. A step that cannot happen at its point is skipped.

| file | models |
|---|---|
| `Wrappers.dfy`, `Sequences.dfy`, `OrderedMap.dfy` | options and results, duplicate-free lists, maps in insertion order |
| `Text.dfy`, `Words.dfy` | white space, `trim`, UTF-8 sizes, newline framing, comparison up to white space |
| `Catalog.dfy`, `Ranking.dfy` | building the registry, capabilities, routing indices, automatic ranking |
| `Fallback.dfy` | `findNextModelId`: the worklist that grows while it is scanned, the emergency model |
| `RunTrace.dfy`, `RunSteps.dfy`, `Exhaustion.dfy`, `Succession.dfy` | traces of runs and their safety, what giving up means, and which model takes over, shared by both loops |
| `BufferedLaw.dfy`, `StreamedLaw.dfy` | what a turn is to do, turn by turn: its calls, what it delivers, how it ends |
| `BufferedRun.dfy`, `StreamedRun.dfy` | `runModelWithin`, `runModelStreamWithin`, `runModelStream`, proved against these |
| `Benchmark.dfy` | benchmark selection and the worker pool |
| `Utf8.dfy` | UTF-8 decoding with replacement characters, of a whole output and chunk by chunk (Unicode, section 3.9) |
| `JsonLines.dfy`, `JsonRpc.dfy` | the lines of a JSON-RPC 2.0 stream, and the client of the Codex bridge |
| `TurnText.dfy` | hold-back, deltas and finalisation of a bridge turn, the /responses merge |
| `CliStream.dfy`, `ControlledCommand.dfy` | the CLI provider's event stream and its process queue |
| `Pipeline.dfy` | the process queue, the CLI stream and the registry's relay put together |
| `Session.dfy` | session transcript, subscribers, life cycle |
| `SignatureCache.dfy`, `RateLimit.dfy` | the tool-signature cache, the rate limiter and its LRU store |
| `ArtifactStates.dfy`, `Artifacts.dfy` | result collection, cancel, eviction and close of agent runs and remote tasks |
| `Layout.dfy` | relative paths and the isolated directory of a handoff |
| `Handoff.dfy` | strict base64 (RFC 4648, sections 3.5 and 4), handoff normalisation, remote file envelope |
| `ProofMarkers.dfy` | reading and printing completion markers |

## What the proofs found

- A streamed run can call a provider again after recording its auth failure, when the provider's profile lists
  that status as retryable. `StreamedRun.RunStreamWithin` says for every run exactly which models this happens to,
  `StreamedRun.AuthRetryHappens` gives a run. Buffered runs never do this.
- A JSON line `null` makes the RPC client throw; the model ends the process there, and every contract says so.
- The RPC client decodes every stdout chunk by itself, so its messages do depend on the chunks: a character cut in
  two is handed out as U+FFFD characters (`JsonRpc.CharacterCutInTwo`). The decoded chunks are the text that the
  child wrote if and only if no chunk begins in the middle of a character, and a longer one otherwise
  (`Utf8.ChunksDecodeToText`). When no chunk does, the messages are those of the whole output decoded at once,
  whatever its bytes are (`JsonRpc.Run`).
- A message delta for a part that is no longer the newest one is lost (`TurnText.DeltaToAnOlderPartIsLost`). The
  deltas of a streamed turn spell its done text if and only if at every notification the aggregate text is held back
  or extends what was streamed: a stream that has lost text never catches up. The one exception is a text that turns
  out to be a contract, whose unwrapped text the incomplete deltas may happen to spell (`TurnText.RunTurn`).
- Result collection can start twice (`Artifacts.CollectedTwice`): exactly when a result request comes after close()
  has passed the record and before the first collection's finally callback (`ArtifactStates.CollectionsAreBounded`).
- A staged handoff can leave the table without any attempt to clean it up (`Artifacts.NeverCleanedUp`): exactly when
  a collection failed before the block that ends in the cleanup (normalising the handoff, checking that files were
  requested, or resolving the workspace), and its finally callback ran before any cancel, eviction, close or other
  collection had begun the cleanup (`ArtifactStates.NothingIsStranded`). With a cancel in between the cleanup is begun after all
  (`Artifacts.CancelledInTime`).
- A listener that unsubscribes inside its callback for the final status event never gets the exit event
  (`Session.Run`).
- A terminated session turns failed if the child reports an error before it closes; a plain close keeps the status.
- The rate limiter's advised delay is one millisecond short exactly when the rest of the window is a whole number
  of seconds (`RateLimit.WaitingAsAdvised`). A limit of 0, which the configuration forbids, would admit one request.
- A marker value that hides a marker line behind U+2028 or U+2029 is counted twice when printed and read again
  (`ProofMarkers.HiddenLineIsCountedTwice`); `ProofMarkers.RoundTrip` gives the exact condition.
- Strict base64 refuses the empty content, so the round trip holds exactly for non-empty byte sequences.

## Model

| member | source | states |
|---|---|---|
| Catalog.Create | src/providers/registry.ts:156-203 | building succeeds exactly on well-formed configurations (distinct providers and models, no reserved id); the catalogue then holds every model once, in order, each binding with the fields of its configuration, and an error names a real clash |
| Catalog.CapabilitiesDecide | src/providers/registry.ts:987-1005 | a model serves a request exactly if it has the capability of its kind and tools where they are required; only the routing test does not ask image requests for tools |
| Ranking.CreatedIsRoutable | src/providers/registry.ts:172-199 | in every created catalogue the automatic models have distinct routing indices and none is manual-only |
| Ranking.SortedUniquely | src/providers/registry.ts:1119-1159 | the ranking comparator is a strict total order, so two sorted lists with the same elements are equal |
| Ranking.RankAutoCandidates | src/providers/registry.ts:1119-1159 | the result is a permutation of the eligible models that can serve the request, with their scores, best first: a higher score comes earlier, and among equal scores the lower routing index |
| Ranking.ManualOnlyDoesNotInterfere | src/providers/registry.ts:1119-1159 | configurations with the same models apart from manual-only ones have the same ranking: same ids, scores and order |
| Ranking.ManualModelsDoNotInterfere | src/providers/registry.ts:170-187 | in particular when manual-only models are deleted or inserted anywhere in the providers |
| Ranking.ManualProvidersDoNotInterfere | src/providers/registry.ts:159-187 | and when a whole provider with only manual-only models is deleted or inserted |
| Fallback.GrowthBound | src/providers/registry.ts:1012-1031 | each growth of the scanned worklist uses up a configured fallback id, so the scan ends on cyclic graphs too |
| Fallback.ScanPending | src/providers/registry.ts:1020-1032 | the loop over the growing list computes the specified scan |
| Fallback.NewIdsKeepTheirOrder | src/providers/registry.ts:1013-1015 | new fallback ids join the worklist once each and in the order in which they are configured |
| Fallback.ScanResult | src/providers/registry.ts:1007-1045 | the worklist stays duplicate-free and reachable, and the answer is its first model that is registered, untried, not manual-only, capable and on no auth-failed provider |
| Fallback.ChainAnswersIffReachable | src/providers/registry.ts:1007-1045 | the configured chain answers exactly when some dispatchable model is reachable over fallback edges through auth-blocked siblings |
| Fallback.EmergencyModelIsFresh | src/providers/registry.ts:1033-1044 | an emergency model is dispatchable and the first one of the ranking that is untried, idle and on no auth-failed provider |
| Fallback.EmergencyExists | src/providers/registry.ts:1033-1044 | there is an emergency model exactly if some automatic, capable, untried and idle model is on no auth-failed provider, and it is the best of them |
| Fallback.FindNext | src/providers/registry.ts:1007-1045 | the answer in terms of the catalogue alone: no search after the emergency attempt, an abort or a spent budget; else a model in reach of the worklist; else, if and only if the request is replay-safe and the first visited model is not manual-only, the best model that can step in; the bookkeeping changes only in its worklist and emergency model |
| Fallback.NextIsFresh | src/providers/registry.ts:1007-1045 | whatever comes next is fresh and allowed; a search that fails has looked at everything |
| RunTrace.CountsAreBounded | src/providers/registry.ts:782-975 | in every safe trace a model is entered at most once and called at most twice |
| RunTrace.LaterEvents | src/providers/registry.ts:782-975 | later models are never manual-only; no dispatch to a provider recorded as auth-failed; after an emergency selection only that model runs; nothing runs after something visible was delivered |
| RunTrace.EmergencyRunsOnce | src/providers/registry.ts:1033-1044 | the emergency model is dispatched at most once |
| RunTrace.SafeRunsKeepPromises | src/providers/registry.ts:782-975 | the promises of a run read off its trace: each model entered once and called at most twice, only the first may be manual-only, no dispatch after an auth failure, an emergency model only for a replay-safe request whose first model is not manual-only, and then last and called once, and all visible events after one and the same call, the last |
| RunTrace.TurnsAreBounded | src/providers/registry.ts:782-975 | a run has at most one turn per registered model |
| RunSteps.Send | src/utils/execution-policy.ts:51-58 | a dispatch that the bookkeeping allows keeps the trace safe and is counted |
| RunSteps.Advance | src/providers/registry.ts:1007-1045 | looking for the next model keeps the trace safe and yields only fresh models |
| Succession.FindSuccessor | src/providers/registry.ts:1007-1045 | which model takes over after a turn, in terms of the trace so far: one within reach of the roots over fallbacks of tried and auth-blocked models, else the best one that can step in; nobody exactly if there is none |
| BufferedRun.Attempt | src/providers/registry.ts:882-908 | one attempt with its single retry: the provider is called once, or a second time, exactly under the conditions listed, and the attempt succeeds, fails or is stopped as the reply to the last call says |
| BufferedRun.EnterAndTry | src/providers/registry.ts:801-945 | a turn enters its model, makes the calls that are due, and ends answered, stopped or uncertain exactly when the reply to its last call says so; the provider is recorded as auth-failed exactly after an auth skip or an auth error it fails fast on |
| Exhaustion.NothingIsLeft | src/providers/registry.ts:782-975 | a worklist closed under fallbacks of tried and auth-blocked models misses nothing that could be dispatched |
| BufferedRun.TakeTurn | src/providers/registry.ts:782-975 | each turn enters one new model, explains its part of the trace, and either hands over to the model that takes over or ends the run with the outcome that its last reply decides |
| BufferedRun.RunModel | src/providers/registry.ts:772-975 | for any fallback graph and any provider behaviour, turn by turn: the calls made are those due; every turn but the last was skipped or ended in a reply that is no answer, and the model that takes over came next; a model is served if and only if the reply to the last call of the last turn is an answer; an uncertain error and an abort end the run exactly when they occur; and it is exhausted exactly when nobody takes over. The trace is safe, with at most one turn per model, the budget kept and no repeated call after an auth failure |
| StreamedRun.Relay | src/providers/registry.ts:1215-1234 | what one attempt delivers: its events up to an error, or its buffered calls and done event; and exactly when and with which error it fails |
| StreamedRun.TryModel | src/providers/registry.ts:1207-1250 | what is called, delivered and recorded in a turn; it returns exactly if the last attempt succeeded, throws exactly if it was aborted or cut, or failed with something visible delivered, on a provider that does not allow fallback, for a request that is not replay-safe or with an uncertain error, and passes on otherwise |
| StreamedRun.TakeTurn | src/providers/registry.ts:1192-1256 | a turn explains its part of the trace, and either hands over to the model that takes over or ends the run with the outcome that its last attempt decides |
| StreamedRun.RunStreamWithin | src/providers/registry.ts:1180-1260 | for any fallback graph and any provider behaviour, turn by turn: the calls made and the events delivered are those due; every turn but the last passed on, and the model that takes over came next; the run returns or throws exactly as its last attempt and its search say, and is exhausted exactly when nobody takes over; auth-failed providers are called again for exactly the models whose turn has such a failure. The trace is safe, with at most one turn per model and the budget kept |
| StreamedRun.AuthRetryHappens | src/providers/registry.ts:1241-1250 | a run with such a call |
| StreamedRun.RunStream | src/providers/registry.ts:1161-1178 | the outer stream forwards the run's events up to an error or an abort of its wait, exactly up to the first abort, and completes exactly when the run returned without either, after a done event |
| Benchmark.FirstsCoverProviders | src/providers/registry.ts:419-430 | the first candidates are one per provider and cover every provider |
| Benchmark.SelectBenchmarkCandidates | src/providers/registry.ts:400-450 | min(limit, n) distinct candidates (all for limit 0), every provider covered when the limit allows, one per provider otherwise, and the rest beats every candidate left out |
| Benchmark.CreatedIndicesFollowOrder | src/providers/registry.ts:172-199 | in every created catalogue the routing indices break ties like the catalogue order does |
| Benchmark.Pool.Finish | src/providers/registry.ts:384-394 | a worker that finishes starts the next candidate in list order, or returns when none is left |
| Benchmark.RunBenchmarkBatch | src/providers/registry.ts:375-398 | for every order of completions: starts in list order, at most the concurrency in flight and never fewer while something is left to start, the completions in their order, and when no worker runs any more each candidate was run exactly once |
| Text.TrimExtends | src/scripts/codex-appserver-bridge.ts:1834-1834 | trim(s) is a prefix of trim(s + t) |
| Text.TrimInsert | src/scripts/codex-appserver-bridge.ts:1833-1834 | inserting text anywhere makes the trimmed text longer unless it only extends it |
| Text.FramingIsChunkIndependent | src/scripts/codex-appserver-bridge.ts:218-230 | the lines of a text do not depend on where it is cut |
| Utf8.DecodeInChunks | src/scripts/codex-appserver-bridge.ts:133-137 | chunks of any bytes, none of which begins in the middle of a character, decode to what their concatenation decodes to |
| Utf8.ChunksDecodeToText | src/scripts/codex-appserver-bridge.ts:133-137 | the chunks of an encoded text decode to that text if and only if no chunk begins in the middle of a character, and to a longer one otherwise |
| Utf8.WholeCharacters | src/scripts/codex-appserver-bridge.ts:133-137 | that is, if and only if every chunk is the encoding of some text |
| Utf8.DecodedIsEncoded | src/scripts/codex-appserver-bridge.ts:133-137 | what is decoded without a replacement character is the encoding of the result |
| JsonLines.AnswersMatch | src/scripts/codex-appserver-bridge.ts:239-261 | a request is answered only by a response line with its own id, with that line's verdict |
| JsonLines.ResponsesAnswer | src/scripts/codex-appserver-bridge.ts:239-261 | the first response line for a pending request answers it, with its verdict |
| JsonLines.MessagesByLine | src/scripts/codex-appserver-bridge.ts:225-265 | a line adds its message exactly if it is not blank when trimmed, is a notice, and no null line came before |
| JsonLines.TextIsItsLines | src/scripts/codex-appserver-bridge.ts:218-226 | the lines and the rest of a text, put together again, are the text |
| JsonLines.ReturnsDoNotMatter | src/scripts/codex-appserver-bridge.ts:225-230 | a text with CR LF line ends has the same messages and answers as with LF |
| JsonRpc.PostAllConserves | src/scripts/codex-appserver-bridge.ts:267-274 | handing out or queueing messages neither loses, repeats nor reorders any |
| JsonRpc.PostAllServes | src/scripts/codex-appserver-bridge.ts:267-274 | waiting readers are served first come, first served, and the rest is queued |
| JsonRpc.Client.Request | src/scripts/codex-appserver-bridge.ts:150-166 | a new id becomes pending with its timer, or is settled at once when sending fails |
| JsonRpc.Client.RequestTimeout | src/scripts/codex-appserver-bridge.ts:153-156 | a timeout settles exactly its own pending request |
| JsonRpc.Client.NextMessage | src/scripts/codex-appserver-bridge.ts:180-202 | a reader gets the oldest queued message, null after the end, or waits last in line |
| JsonRpc.Client.ReaderTimeout | src/scripts/codex-appserver-bridge.ts:193-199 | a timed-out reader takes its own waiter away and no other |
| JsonRpc.Client.OnData | src/scripts/codex-appserver-bridge.ts:133-137 | a chunk is decoded by itself, and hands out and settles exactly what the lines it completes say |
| JsonRpc.Client.DrainBuffer | src/scripts/codex-appserver-bridge.ts:218-265 | the loop hands out the messages of the complete lines in order, settles what their responses settle, keeps the unfinished rest, and fails exactly at a null line |
| JsonRpc.Client.RejectAll | src/scripts/codex-appserver-bridge.ts:276-286 | an error or a close settles exactly the pending requests and releases every reader |
| JsonRpc.ResponseSettles | src/scripts/codex-appserver-bridge.ts:239-261 | a response line to a pending request, the first for it in a chunk, settles the request with its verdict |
| JsonRpc.SettledStays | src/scripts/codex-appserver-bridge.ts:150-166 | what is settled stays settled |
| JsonRpc.Run | src/scripts/codex-appserver-bridge.ts:108-287 | in every interleaving the client ends in the state that the steps say; the messages handed out followed by the queue are the messages of the decoded chunks, and those of the decoded whole output when no chunk begins in the middle of a character; queue and waiters are never both non-empty; every issued request is pending or settled exactly once, none is pending after a close, and every answer has a response line with its id |
| JsonRpc.CharacterCutInTwo | src/scripts/codex-appserver-bridge.ts:133-137 | a line whose message changes when its character is cut |
| TurnText.DeltaCompletes | src/scripts/codex-appserver-bridge.ts:370-381 | previous text plus delta is the next text if and only if the next text extends the previous one |
| Words.SameWordsMeans | src/scripts/codex-appserver-bridge.ts:1250-1266 | a part repeats the one before it if and only if both have the same words |
| TurnText.AppendUniqueExtends | src/scripts/codex-appserver-bridge.ts:1250-1266 | a new text part only extends the aggregate text |
| TurnText.Turn.StreamOutput | src/scripts/codex-appserver-bridge.ts:1734-1776 | a faithful stream stays faithful exactly when the text is held back or extends what was streamed |
| TurnText.Turn.AgentDelta | src/scripts/codex-appserver-bridge.ts:1823-1836 | a delta is appended to the part of its item, or opens a part at the end for a new item; deltas to the newest part keep the stream live; any other does exactly when the aggregate text is held back or still extends; else the stream falls short for good |
| TurnText.Turn.Completed | src/scripts/codex-appserver-bridge.ts:1913-1920 | whole parts keep the stream live |
| TurnText.Turn.Finish | src/scripts/codex-appserver-bridge.ts:2048-2136 | from a live stream the deltas spell the final text (live, held back, unwrapped contract or plain JSON); from one that has fallen short exactly when they already spelled a contract's text; the reasoning deltas always spell the final reasoning; exactly when no done event is written |
| TurnText.RunTurn | src/scripts/codex-appserver-bridge.ts:1734-2136 | for every list of notifications: the final text is that of the parts in the order in which they came up, one per item with all its deltas concatenated and one per new completed text, and when there is none; the reasoning deltas concatenate to the final reasoning; the output deltas to the done text if and only if all text survived or the deltas happen to spell the text of a contract; in particular with deltas to the newest part |
| TurnText.OneMessage | src/scripts/codex-appserver-bridge.ts:1827-1834 | the deltas of a single item make one part, their concatenation, and its trim is the text |
| TurnText.JoinedParts | src/scripts/codex-appserver-bridge.ts:1834-1834 | parts are joined by newlines: the lines of the joined text are the parts |
| TurnText.NewestPartsSurvive | src/scripts/codex-appserver-bridge.ts:1823-1836 | with deltas to the newest part all text survives |
| TurnText.DeltaToAnOlderPartIsLost | src/scripts/codex-appserver-bridge.ts:1823-1836 | a turn whose output deltas do not spell its done text |
| TurnText.MergeStream | src/routes/openai.ts:1064-1158 | the handler's loop computes the specified merge |
| TurnText.RouteIsFaithful | src/routes/openai.ts:1138-1154 | the route's deltas concatenate to its final texts if and only if the done text extends the streamed text |
| TurnText.BridgeToClient | src/routes/openai.ts:1064-1158 | a bridge stream that spells its done texts reaches the route's client with the same texts |
| CliStream.RunStream | src/providers/cli-provider.ts:146-196 | within the byte limit the events and the outcome are those of the whole stdout text, however it is chunked; beyond it the run stops before the chunk that crossed the limit |
| CliStream.AcceptsTheGrammar | src/providers/cli-provider.ts:149-158 | reading line by line accepts exactly the event sequences of the grammar and sorts them into deltas, calls and the done event |
| CliStream.CompletesIff | src/providers/cli-provider.ts:182-191 | a run completes if and only if the stream is well formed, ends in its only done event, is no refusal and has tool calls exactly for finish reason tool_calls; it then yields deltas, tool calls, done |
| CliStream.FirstViolation | src/providers/cli-provider.ts:149-158 | which error ends a stream whose lines break the grammar, by the first line that does |
| CliStream.FailsFor | src/providers/cli-provider.ts:174-196 | which error ends a stream whose lines keep the grammar, in the order of the checks |
| CliStream.FailuresYieldDeltasOnly | src/providers/cli-provider.ts:146-196 | a failed run has yielded a prefix of the deltas and no tool call or done event |
| Pipeline.RunProvider | src/providers/cli-provider.ts:160-186 | if the process generator returns normally the provider's outcome is that of the child's whole stdout, however chunks, wake-ups and reads interleave; otherwise the provider fails |
| Pipeline.CompletedStreamSucceeds | src/providers/registry.ts:1216-1226 | a completed CLI stream is relayed whole and counts as a success unless its done event reports an error |
| Pipeline.FailedStreamCommitsByDeltas | src/providers/registry.ts:1223-1245 | a failed CLI stream rules out retry and fallback exactly when it has delivered a non-empty delta |
| ControlledCommand.Command.Data | src/utils/controlled-command.ts:22-26 | output is queued in arrival order; it stops the command exactly when it exceeds the limit or shows an upstream error |
| ControlledCommand.Command.Resume | src/utils/controlled-command.ts:29-36 | the generator yields the oldest chunk, waits only with nothing to do, and returns normally exactly when closed, drained, unstopped, with code 0 and no process left |
| ControlledCommand.Command.Drained | src/utils/controlled-command.ts:37-48 | a stop run to the end raises an error |
| ControlledCommand.Run | src/utils/controlled-command.ts:9-50 | in every interleaving the command ends in the state that the steps say; the consumer gets a prefix of the output; a normal return means all of it, at most 10 MiB, code 0 and no stop; a waiting generator has yielded all output and missed no stop or close |
| Session.LongestFitIsUnique | src/jobs/provider-session-manager.ts:435-443 | the retained suffix is determined by the history and the budget |
| Session.SessionRecord.Store | src/jobs/provider-session-manager.ts:435-443 | eviction keeps the longest suffix of the history that fits, or the last event, and the byte total |
| Session.SessionRecord.EmitEvent | src/jobs/provider-session-manager.ts:414-448 | the next cursor is never a used one; every subscriber gets the event once and may unsubscribe inside its callback |
| Session.SessionRecord.GetTranscript | src/jobs/provider-session-manager.ts:116-122 | exactly the retained events after the cursor, in order |
| Session.SessionRecord.Subscribe | src/jobs/provider-session-manager.ts:124-150 | a replay of the retained events after the cursor; only a session that is not final is followed |
| Session.SessionRecord.FinalizeRecord | src/jobs/provider-session-manager.ts:374-401 | the first finish sets the summary, emits one exit event, which every subscriber that has not unsubscribed at the status event gets, and disarms the timers; later ones change nothing |
| Session.SessionRecord.ChildClose | src/jobs/provider-session-manager.ts:253-258 | the exit status rule: a terminated or timed-out session keeps its status |
| Session.SessionRecord.TimerFires | src/jobs/provider-session-manager.ts:338-372 | a timer stops only a session that is not final |
| Session.SessionRecord.Unsubscribe | src/jobs/provider-session-manager.ts:145-149 | a listener that unsubscribes keeps what it got and gets no more |
| Session.Run | src/jobs/provider-session-manager.ts:116-412 | for every sequence of callbacks and calls the session ends in the state that the steps say, each step changing the summary as its kind allows: cursors number the history and the transcript is its longest fitting suffix; every listener got, once and in order, the events from the first retained one after its cursor, up to now while it follows, up to the exit event if it followed to the finish, and stops earlier only by its own or the manager's doing, exactly at the first event for which its callback unsubscribes; there is one exit event exactly when finished |
| Session.FinishedIsForever | src/jobs/provider-session-manager.ts:380-382 | once the finish time is set, status, exit code and finish time never change |
| Session.StoppedStaysStopped | src/jobs/provider-session-manager.ts:624-632 | a terminated or timed-out session keeps that status, or has failed exactly when the child reported an error before the session finished |
| SignatureCache.ExpiredEntriesFormAPrefix | src/providers/openai-compatible-provider.ts:98-102 | the entries expired at one instant are the oldest ones |
| SignatureCache.PruningRespectsTheClock | src/providers/openai-compatible-provider.ts:98-102 | what was expired at the first clock reading goes, what is not expired at the last one stays |
| SignatureCache.Cache.PruneSignatures | src/providers/openai-compatible-provider.ts:98-102 | whatever the clock does, deleting while iterating removes exactly the entries expired at their own reading, and the counter stays the sum |
| SignatureCache.Cache.EvictOldest | src/providers/openai-compatible-provider.ts:109-112 | the loop keeps the longest suffix within 128 entries and 1048576 bytes and never reads an empty map |
| SignatureCache.Cache.RememberSignature | src/providers/openai-compatible-provider.ts:103-113 | whatever the clock does, the whole new cache; the new entry is kept exactly when it fits by itself |
| SignatureCache.RenewingKeepsTheOrder | src/providers/openai-compatible-provider.ts:103-113 | an insertion that reads no earlier time keeps the entries sorted by expiry |
| SignatureCache.Run | src/providers/openai-compatible-provider.ts:93-113 | every operation leaves the longest fitting suffix of what was not expired at its reading, and the new entry; over every run the bounds hold and the counter is the sum; with insertion times that do not step back the entries are sorted by expiry |
| RateLimit.AdmissionsFormWindows | src/server.ts:53-82 | for any request times the admissions split into windows of at most max(1, limit) requests within windowMs, each starting after the one before has ended |
| RateLimit.AdmittedExactly | src/server.ts:53-82 | a request is admitted if and only if there was no admission before it, the last window has ended, or it has room |
| RateLimit.UnderTheLimitIsAdmitted | src/server.ts:53-82 | a client that had fewer admissions than the limit within windowMs is never refused |
| RateLimit.AtMostTwiceTheLimit | src/server.ts:53-82 | admissions within windowMs of each other are at most twice the limit |
| RateLimit.WaitingAsAdvised | src/server.ts:71-77 | a client that waits as advised is admitted if and only if the rest of the window is no whole number of seconds |
| RateLimit.Limiter.Check | src/server.ts:53-82 | a key that was not dropped for capacity is decided as if it were alone; a key is dropped only when as many other keys as the store holds were used after it |
| RateLimit.Limiter.Set | src/utils/lru-map.ts:26-40 | setting a key evicts at most the least recently used one |
| RateLimit.Limiter.Sweep | src/server.ts:128-135 | the sweep removes exactly the expired windows and changes no decision |
| RateLimit.Serve | src/server.ts:53-135 | for any mix of requests and sweeps: each step decides and stores what it should, a key is dropped exactly when it was the least recently used one of a full store, and every key that was never dropped is let through exactly as if its requests were the only ones |
| RateLimit.Limiter.AdmissionBound | src/server.ts:53-82 | whatever other keys and sweeps do, admissions of a kept key within windowMs are at most twice the limit |
| Artifacts.AgentRecord.GetResultFiles | src/jobs/codex-agent-manager.ts:190-230 | concurrent callers share the running collection; exactly when a collection is started and each error raised; a second one only after close() passed a settled first one |
| Artifacts.AgentRecord.Settle | src/jobs/codex-agent-manager.ts:206-211 | a result is installed only while the record is in the table |
| Artifacts.AgentRecord.Finish | src/jobs/codex-agent-manager.ts:212-219 | the finally callback drops the handoff, uncleaned exactly for an early failure that no cleanup preceded, and arms the cache timer of a record still in the table |
| Artifacts.AgentRecord.Cancel | src/jobs/remote-agent-manager.ts:271-284 | a cancel begins the cleanup exactly when there is a handoff |
| Artifacts.AgentRecord.TimerFires | src/jobs/codex-agent-manager.ts:535-552 | eviction waits for a running collection, cleans up an uncollected handoff, else drops the result |
| Artifacts.AgentRecord.CloseVisit | src/jobs/codex-agent-manager.ts:261-279 | close() ends the record, disarms its timer and begins the cleanup of an uncollected handoff |
| ArtifactStates.AlwaysSound | src/jobs/remote-agent-manager.ts:112-412 | in every interleaving at most one collection is offered at a time, none once the handoff is gone, the handoff is given up only after a disposal, and a terminal record of an open manager has its eviction on the way |
| ArtifactStates.NothingIsStranded | src/jobs/remote-agent-manager.ts:140-412 | no terminal record is stranded in the table, and a record that left it had its cleanup begun if and only if that came before an early-failed collection dropped the handoff |
| ArtifactStates.DroppedOnlyAfterFailure | src/jobs/codex-agent-manager.ts:205-219 | a handoff is dropped uncleaned only after a collection that failed early |
| ArtifactStates.CollectionsAreBounded | src/jobs/codex-agent-manager.ts:190-279 | one collection at most without close(), two with it, and two if and only if a result request comes between close() and the first collection's finally callback |
| Artifacts.Run | src/jobs/remote-agent-manager.ts:112-412 | every interleaving of the methods ends in the state that the steps say, so these theorems hold of the record itself |
| Artifacts.CollectedTwice | src/jobs/codex-agent-manager.ts:204-275 | a schedule with two collections |
| Artifacts.NeverCleanedUp | src/jobs/agent-handoff-store.ts:250-258 | a schedule in which nobody tries to clean up |
| Artifacts.CancelledInTime | src/jobs/remote-agent-manager.ts:271-284 | the same early failure with a cancel before its callbacks: the cleanup is begun |
| Base64.StrictRoundTrip | src/jobs/agent-handoff-store.ts:851-859 | strict decoding inverts encoding for every byte sequence but the empty one, which is refused |
| Base64.ReencodingCanonicalises | src/jobs/agent-handoff-store.ts:517-517 | re-encoding gives back the text if and only if its pad bits are zero |
| Base64.StrictDecodingCanonicalises | src/jobs/agent-handoff-store.ts:851-859 | every accepted value has a canonical form that is accepted and decodes to the same bytes |
| Base64.AlphabetIsStandard | src/jobs/agent-handoff-store.ts:851-859 | the 64 characters are those of section 4 of RFC 4648 |
| Base64.GroupsAreNumbers | src/jobs/agent-handoff-store.ts:851-859 | three bytes and their four characters are the same number, and short groups are padded |
| Base64.MatchesThePattern | src/jobs/agent-handoff-store.ts:851-859 | the pattern accepts exactly the texts of a length divisible by four in the characters of the alphabet, but for one or two equals signs at the end |
| Layout.SplitJoin | src/jobs/agent-handoff-store.ts:811-821 | splitting a joined path gives back its segments |
| Layout.PathsMatchBySegments | src/jobs/agent-handoff-store.ts:811-821 | a path is normalised to an expected one if and only if it is relative and has the expected segments, however it is written |
| Layout.HeaderIsExact | src/jobs/agent-handoff-store.ts:460-493 | a header is accepted if and only if version, operation id and limits are right and every path names its place in the isolated directory of the operation |
| Layout.IsolatedLayoutIsAccepted | src/jobs/agent-handoff-store.ts:466-486 | the isolated directory of every well-formed operation id is accepted |
| Layout.AcceptedPathsStayInside | src/jobs/agent-handoff-store.ts:811-821 | a path is accepted if and only if it is not empty, not absolute, and has segments none of which is a dot or two dots; the result is relative with the same segments |
| Handoff.NormalizeAgentHandoff | src/jobs/agent-handoff-store.ts:459-529 | accepted exactly when the header passes its checks, every requested glob is a safe relative path, and there are at most 12 safe files, with attested sizes and digests, names distinct ignoring case and at most 6 MiB in all; the result is the canonical handoff, and a refusal names the first check that fails on the first file that fails one |
| Handoff.FileChecked | src/jobs/agent-handoff-store.ts:496-513 | a file passes if and only if its name is safe, its content is strict base64 of the stated size within the limit, and its digest matches; else the first of these that fails is the error |
| Handoff.NormalizationIsIdempotent | src/jobs/agent-handoff-store.ts:459-529 | normalising again changes nothing, and the bytes of every file stay the same |
| Handoff.EnvelopeRoundTrip | src/jobs/agent-handoff-store.ts:375-393 | every non-empty file within the limit is read back byte for byte |
| Handoff.EnvelopeIsAttested | src/jobs/agent-handoff-store.ts:375-393 | an envelope is read as some bytes if and only if its size line gives their number, within the limit, its digest line their digest, and its content is their strict base64 |
| Handoff.EnvelopeFitsTheBudget | src/jobs/agent-handoff-store.ts:377-377 | the output budget exceeds the envelope of every file within the limit by more than 8000 bytes |
| ProofMarkers.ReadMarkerValues | src/jobs/remote-cli-tool-manager.ts:639-650 | the scanning loop reads the specified values |
| ProofMarkers.ValuesAreClean | src/jobs/remote-cli-tool-manager.ts:639-654 | values are trimmed, non-empty, single-line and never placeholders |
| ProofMarkers.OneLineRead | src/jobs/remote-cli-tool-manager.ts:639-654 | a line has a value if and only if it begins with the marker and an equals sign, and the trimmed rest is neither empty nor a placeholder |
| ProofMarkers.ProofTells | src/jobs/remote-cli-tool-manager.ts:526-555 | a marker is missing if and only if it is required and has no value; the proof is complete if and only if none is; and each marker found comes with all its values |
| ProofMarkers.ReadingSplitsAtBreaks | src/jobs/remote-cli-tool-manager.ts:639-650 | texts joined by a newline are read one after the other |
| ProofMarkers.RoundTrip | src/jobs/remote-cli-tool-manager.ts:526-637 | printing a parsed proof and parsing it again gives the same markers, missing list and verdict if and only if no value hides a marker line |
| ProofMarkers.PlainTextsRoundTrip | src/jobs/remote-cli-tool-manager.ts:526-637 | in particular for every text whose only line terminators are CR and LF |
| ProofMarkers.HiddenLineIsCountedTwice | src/jobs/remote-cli-tool-manager.ts:639-650 | a text for which the round trip fails |

## Left out

- Spawning, SSH, HTTP, the file system, symlink checks, signals and shell quoting: foreign effects, replaced by oracle values or step parameters.
- `getModelSkipReason`, `profileRetryAllowed`, `replaySafeChat`, model health and the score tables: oracles or abstract functions of the binding.
- Deadlines and receipts of `ExecutionPolicy`: only the attempt budget and abort points are modelled.
- Statistics, usage, raw payloads and the text of error messages: they decide nothing in the modelled code.
- The RPC clients of the Kimi, Grok and codex-agent bridges: a timed-out reader leaves a stale waiter that swallows the next message, so the no-loss property does not hold for them.
- Bridge turns that are not streamed, image generation among them: they write no deltas.
- Lone surrogates: strings are sequences of Unicode scalar values, and the length limits of tool calls count those.
- The tool-call timing and the wait loop of the bridge's `run`: only its text and its notifications are modelled.
- First-token timers and reasoning-effort receipts of the CLI stream.
- Configuration schemas, authentication hooks, SSE framing, metrics and the gateway command line.
- Codex runs before `startRun` returns, and the staging of handoffs.
- Order among the subscribers of one session event: each gets it, their order is not modelled, and from inside its callback a listener unsubscribes only itself.
- Artifacts.AgentRecord.Close: one record and one call of close(); other records matter only through the steps in between.
- Handoff.NormalizeAgentHandoff: Unicode lower-casing and SHA-256 are foreign functions, and fields that no check reads are not modelled.
- Session.SessionRecord.Interact: writing to the child's standard input and signalling it are effects outside the model.
