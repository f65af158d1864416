# Verified core of the daemon runtime

A Dafny model of the state machines at the heart of the Airymax daemons, with proofs of the properties
that hold over whole runs: every way of cutting a byte stream, every interleaving of critical sections,
every history of calls. `dafny verify dfyconfig.toml` checks all of it.

| file | what it models |
|---|---|
| `Common.dfy` | options, integer widths, fixed-size string fields |
| `Bytes.dfy`, `Utf8.dfy`, `GrowBuffer.dfy` | bytes, the UTF-8 hold-back scan against the syntax of section 4 of RFC 3629, the growable text buffer |
| `FrameParser.dfy` | the RS framing as an automaton over parse events, and a byte-at-a-time reference automaton |
| `StreamCodec.dfy` | what a parsed stream means, the encoder, the round trip |
| `StreamView.dfy`, `StreamDemux.dfy` | the demultiplexer: its state as a value with the invariants, and the class that updates it in place |
| `ContextLedger.dfy`, `ReactShape.dfy`, `ToolLoop.dfy` | the context ledger, the shape compaction keeps, the ReAct loop that drives it |
| `SwapGate.dfy` | the hot-swap drain gate |
| `NegCache.dfy` | the reachability negative cache and the connection entry that uses it |
| `InvokeSessions.dfy`, `AgentSlots.dfy` | cancel tokens of in-flight invokes; the life cycle of agent slots |
| `ModelWatch.dfy`, `HealthGate.dfy`, `RateLimit.dfy` | configuration drift watch, edge-triggered health gate, fixed-window rate limiter |

How the pieces are built. State that the source updates in place is a class whose methods follow the
source's branches and loops; each method's contract equates the new state with a function of the old
one (`Now()` is the state as a value). Runs are functions on those values, and the theorems are lemmas
about runs. A lock's critical section is one step; concurrency is an arbitrary sequence of steps.
A call's answer from outside (clock, memory allocation, child process, model, memory service, JSON
parser, file system) is a parameter.

Where code and documentation disagree, the model follows the code:

- The hold-back scan is documented to return 0 to 3 but returns 4 exactly when the text ends in four
  continuation bytes (`agent_run_stream.c:49-69`): `Utf8.TailIsFourIff`, on input `FourContinuationBytes`.
  `Utf8.TailIsPartialChar` shows that 3 is right on prefixes of well-formed text.
- A payload-final RS and an RS inside a payload treat a following RS differently
  (`agent_run_stream.c:266-268` and `300-305`). `FrameParser.CutIndependentIffClean` gives the exact
  condition under which cutting does not matter to the parse, `RsRsTagDependsOnTheCut` the smallest
  stream where it does. The condition is about the parse: a later error frame can hide the difference
  from the caller, since it forgets the text before it. `StreamCodec.UncleanTextDependsOnTheCut` shows
  that the text differs if the stream ends at the tag in question.
- The drift event is documented as sent once per drift; while the file is missing it is sent on every
  due tick (`svc_model_watch.c:108-117`): `ModelWatch.MissingIsReportedAgain`, from
  `FirstSnapshot` on for one. `ModelWatch.ReportsIffNew` states exactly when it is sent.
- Names of 128 characters and more in the negative cache are stored cut to 127. Such a target is not
  found under its own name, and its slot answers to the cut name instead: `NegCache.AgreesIffNamesFit`
  shows that the table agrees with the history exactly when no registered name is that long.
- Request ids of 64 characters and more are stored in the session table cut to 63. Such a request does
  not find its own session (`InvokeSessions.EndReleasesIffIdFits`, in any run), and a request whose id is
  the cut one can find it instead. `InvokeSessions.NoFaultIffIdFits` is the exact limit over runs: allowing
  requests under an id x beside requests whose ids fit, no run touches a token that is not allocated iff
  x has at most 63 characters.
- The content digest is documented as 64-bit FNV-1a; its offset basis in the code is 1469598103934665603
  (`svc_model_watch.c:36`), which is not that hash's, so digests are not those of other FNV-1a programs.
- A failed spawn frees its slot in one critical section and its name in another
  (`service_spawn.c:153-162`): `AgentSlots.SplitRollbackIff` says exactly when a reservation in between
  is harmed, `AgentSlots.SplitSpawnIff` exactly when a whole spawn in between leaves the index exact.
- A compaction protects the first mapped entry as the user's entry message
  (`agent_run_ledger.c:141-148`) and takes the others to be mapped without a gap. A recorded run whose
  seed has no user message maps an assistant there, and a failed `ledger_append`
  (`agent_run_ledger.c:117-122`) leaves a gap. As long as recording succeeds, no run sends a tool call
  without its result iff the run is not recorded or its seed has a user message
  (`ToolLoop.PairedIffEntered`); when recording may fail, iff the run is not recorded
  (`ToolLoop.PairedIffUnrecorded`).

## Model

| member | source | states |
|---|---|---|
| `Utf8.ScanTail` | agent_d/src/run/agent_run_stream.c:50-69 | the backward scan returns the hold-back of the buffer's contents, at most min(4, length) |
| `Utf8.TailIsPartialChar` | agent_d/src/run/agent_run_stream.c:50-90 | on every prefix of well-formed UTF-8 (RFC 3629) the text before the hold-back is well formed and the hold-back is nothing or exactly one incomplete character of at most 3 bytes |
| `Utf8.HoldsBackUnique` | agent_d/src/run/agent_run_stream.c:72-83 | that boundary is the last possible one: no well-formed prefix ends later, and what lies between an earlier boundary and it is well formed |
| `Utf8.TailIsFourIff` | agent_d/src/run/agent_run_stream.c:49-69 | the scan returns 4, beyond its documented range, iff the text ends in four continuation bytes |
| `GrowBuffer.Buffer.Add` | agent_d/src/run/agent_run_stream.c:29-47 | contents grow by exactly the bytes given, or stay as they are when memory is needed and refused; length stays below capacity and the byte after the contents is NUL |
| `GrowBuffer.Buffer.Free` | agent_d/src/run/agent_run_stream.c:148-152 | the buffer is empty and unallocated |
| `FrameParser.CleanIsCutIndependent` | agent_d/src/run/agent_run_stream.c:243-340 | a stream in which no tag directly follows two or more text-mode RS is read like the reference automaton, however it is cut |
| `FrameParser.UncleanIsCutDependent` | agent_d/src/run/agent_run_stream.c:255-305 | every other stream has a cut under which it is read differently |
| `FrameParser.CutIndependentIffClean` | agent_d/src/run/agent_run_stream.c:191-340 | chunk independence, as an if-and-only-if over all byte streams |
| `FrameParser.RsRsTagDependsOnTheCut` | agent_d/src/run/agent_run_stream.c:266-305 | `RS RS tag` is three text bytes in one payload, and a text byte and an opened frame in two |
| `FrameParser.SingletonsAreReference` | agent_d/src/run/agent_run_stream.c:243-309 | fed byte by byte the parser is the reference automaton on every stream |
| `StreamCodec.ReadsEncoding` | agent_d/src/run/agent_run_stream.c:162-220 | the reference reads every encoding of RS-free segments and frames as what the items mean, and the encoding is clean |
| `StreamCodec.RoundTrip` | agent_d/src/run/agent_run_stream.c:162-309 | encode, cut anywhere, feed, finish: exactly the frames that fit are dispatched in order, text and outcome are as meant, an oversized or empty frame disturbs nothing |
| `StreamCodec.UncleanTextDependsOnTheCut` | agent_d/src/run/agent_run_stream.c:255-305 | every stream that is not clean has a prefix whose final text depends on the cut |
| `StreamCodec.MeaningAfterError` | agent_d/src/run/agent_run_stream.c:135-188 | text and reasoning of a stream are those since its last delivered error frame, and the error is that frame's |
| `StreamCodec.ErrorForgets` | agent_d/src/run/agent_run_stream.c:133-159 | a delivered error frame leaves its own code and message and no text, reasoning or tools |
| `StreamCodec.ToolsAreNewest` | agent_d/src/run/agent_run_stream.c:93-105 | the tool calls are those of the last array-bodied tool frame since then |
| `StreamCodec.TokensAreNewest` | agent_d/src/run/agent_run_stream.c:108-131 | the token count is that of the last usage frame with a positive count, error frames or not |
| `StreamCodec.LogIsTold` | agent_d/src/run/agent_run_stream.c:108-159 | error code and message are those the last dispatched error frame gives, with -32602, "LLM stream error" and the cut to 255 characters spelt out; tokens and cost those of the last usage frames that give them, whole parts and the fallback sum spelt out; 0 and nothing without such frames |
| `StreamView.FeedParses` | agent_d/src/run/agent_run_stream.c:243-309 | the scanner with its lookahead and half frames refines the parse automaton, payload by payload |
| `StreamView.FeedKeepsInv` | agent_d/src/run/agent_run_stream.c:72-309 | one payload keeps: outcome equals what the log means, deltas since the last error frame equal the sent prefix of the text, deltas are aligned |
| `StreamView.Reachable` | agent_d/src/run/agent_run_stream.c:72-309 | the invariant and the automaton's reading hold after any payloads |
| `StreamView.FlushDelivers` | agent_d/src/run/agent_run_stream.c:332-339 | after the final flush the deltas since the last error frame are the whole text |
| `StreamView.FinishParses` | agent_d/src/run/agent_run_stream.c:316-340 | finish drops a cut-off frame, makes a held RS text, and delivers the rest |
| `StreamView.WholeStream` | agent_d/src/run/agent_run_stream.c:243-340 | feed any payloads and finish: outcome as the reference reads it (clean streams), error and usage as the dispatched frames tell, deltas concatenate to the text |
| `StreamDemux.Stream.Push` | agent_d/src/run/agent_run_stream.c:79-89 | exactly the next stretch of text reaches the sink, and the temporary NUL leaves the buffer as it was |
| `StreamDemux.Stream.EmitText` | agent_d/src/run/agent_run_stream.c:72-90 | text appended and pushed up to the character boundary |
| `StreamDemux.Stream.TakeTools` | agent_d/src/run/agent_run_stream.c:93-105 | an array body replaces the tool calls, any other body changes nothing |
| `StreamDemux.Stream.TakeUsage` | agent_d/src/run/agent_run_stream.c:108-131 | tokens and cost as the usage body gives them, with the sum of the parts when no total is given |
| `StreamDemux.Stream.TakeError` | agent_d/src/run/agent_run_stream.c:135-159 | code and message set, text, reasoning and tools dropped, delta accounting restarted |
| `StreamDemux.Stream.DispatchFrame` | agent_d/src/run/agent_run_stream.c:162-188 | a complete frame takes effect by tag, an oversized or empty one does not; the frame state is reset |
| `StreamDemux.Stream.Drain` | agent_d/src/run/agent_run_stream.c:191-220 | consumes frame bytes up to the closing RS, keeping at most FRAME_MAX - 1 |
| `StreamDemux.Stream.ScanText` | agent_d/src/run/agent_run_stream.c:272-308 | the text scan of a payload is the specified scan |
| `StreamDemux.Stream.Feed` | agent_d/src/run/agent_run_stream.c:243-309 | one payload moves the state as specified, whatever state it finds |
| `StreamDemux.Stream.Finish` | agent_d/src/run/agent_run_stream.c:316-340 | end of stream moves the state as specified |
| `StreamDemux.Stream.Take` | agent_d/src/run/agent_run_stream.c:342-362 | hands over the outcome and leaves text, reasoning and tools empty |
| `StreamDemux.Receive` | agent_d/src/run/agent_run_loop.c:298-312 | one streamed reply end to end: the caller gets what the reference automaton reads, with the error and usage its frames tell; the sink gets exactly the specified deltas, and those since the last error frame are the text |
| `ContextLedger.ReplacedIsFilterAndInsert` | agent_d/src/run/agent_run_ledger.c:199-220 | in-place deletion and insertion is filtering plus one summary at the first candidate's position |
| `ContextLedger.CompactionKeepsMapping` | agent_d/src/run/agent_run_ledger.c:183-237 | the list loses exactly the candidates and gains the summary; the new mapping is injective, points into the list and keeps the entry message |
| `ContextLedger.CompactsIff` | agent_d/src/run/agent_run_ledger.c:239-286 | a budget check compacts iff the ledger is on, the service warns and offers a nonempty context, and some older entry after the first has an id and a text |
| `ContextLedger.Ledger.ProtectStart` | agent_d/src/run/agent_run_ledger.c:132-139 | the last assistant entry, or the length |
| `ContextLedger.Ledger.HasEntries` | agent_d/src/run/agent_run_ledger.c:143-168 | whether any candidate can be submitted |
| `ContextLedger.Ledger.IsCandidate` | agent_d/src/run/agent_run_ledger.c:171-178 | membership in the mapped range between entry and protected tail |
| `ContextLedger.Ledger.DeleteCandidates` | agent_d/src/run/agent_run_ledger.c:213-216 | backward deletion leaves exactly the messages that are not candidates, in order |
| `ContextLedger.Ledger.Apply` | agent_d/src/run/agent_run_ledger.c:183-237 | list and mapping after local replacement, including the case of no candidate |
| `ContextLedger.Ledger.Fit` | agent_d/src/run/agent_run_ledger.c:239-289 | list and mapping after the budget check, for every answer of the memory service |
| `ReactShape.WellShapedIsPaired` | agent_d/src/run/agent_run_loop.c:332-405 | a list of whole groups has no tool message without its assistant and no call without its result |
| `ReactShape.CompactionKeepsShape` | agent_d/src/run/agent_run_ledger.c:130-237 | compaction turns seed, summary, groups into seed, new summary, newest group, and the mapping follows |
| `ReactShape.NothingToCompact` | agent_d/src/run/agent_run_ledger.c:260-265 | with at most one group there is no candidate |
| `ReactShape.CompactionNeedsEntry` | agent_d/src/run/agent_run_ledger.c:141-237 | one compaction of two or more groups without a mapped user message: the result, and that its first assistant's calls have no results |
| `ToolLoop.RoundsAreShaped` | agent_d/src/run/agent_run_loop.c:458-471 | over any run with any compactions in which recording, if on, succeeds: every request is the seed, at most one summary, then consecutive whole groups ending in the newest, group k being what round k said and got; the summary is the prefix and the context offered when the oldest of them was the newest; and with ids for all replies the number of groups is fixed by the rounds at which a context was offered |
| `ToolLoop.FitCounts` | agent_d/src/run/agent_run_ledger.c:239-289 | with everything recorded under ids, a context offered for two or more groups is always compacted down to the newest, and otherwise nothing is |
| `ToolLoop.GoodRequestIsPaired` | agent_d/src/run/agent_run_loop.c:291-406 | such a request starts with the seed and is paired from there on |
| `ToolLoop.RoundsVerdict` | agent_d/src/run/agent_run_loop.c:437-486 | at most 8 rounds; fuse code iff the last three executed calls failed; no three failures in a row earlier; 0 iff the last round had no calls; cancelled and failed iff the script cancels or breaks, or the rounds run out, and nothing ended the run before |
| `ToolLoop.PairedIffEntered` | agent_d/src/run/agent_run_loop.c:245-471 | as long as recording succeeds, every request of every run is paired, whatever else model, tools and memory service answer, iff the run is not recorded or its seed has a user message |
| `ToolLoop.PairedIffUnrecorded` | agent_d/src/run/agent_run_ledger.c:93-128 | when recording may fail, every request of every run is paired iff the run is not recorded |
| `ToolLoop.CompactingRunIsUnpaired` | agent_d/src/run/agent_run_loop.c:245-471 | the run that shows both: two one-call rounds, a warning, and the third request has a call without a result; no user message mapped, or one mapped and the first reply's append failed |
| `ToolLoop.EntrySurvives` | agent_d/src/run/agent_run_ledger.c:183-237 | over any run with any compactions, failed appends and broken rounds included, the mapping is injective and inside the list, its first entry stays, and that message is in every request |
| `ToolLoop.UserMessageSurvives` | agent_d/src/run/agent_run_loop.c:258-271 | in every run that recorded its user message, that entry is the seed's first user message: the prompt, or one of the history |
| `ToolLoop.SeedSurvives` | agent_d/src/run/agent_run_ledger.c:183-237 | every request of every run starts with the whole seed, recorded or not and whether or not recording succeeds |
| `ToolLoop.UnrecordedMapsNothing` | agent_d/src/run/agent_run_ledger.c:93-97 | a run that is not recorded maps nothing |
| `ToolLoop.RequestsStartAsAsked` | agent_d/src/run/agent_run_loop.c:222-271 | every request of every run starts with the system rules (and the note on turns for a history of more than one message), then the history as given, or the prompt as a user message |
| `ToolLoop.Run.FitContext` | agent_d/src/run/agent_run_loop.c:464-464 | list and mapping after the ledger's budget check |
| `ToolLoop.Run.AskModel` | agent_d/src/run/agent_run_loop.c:291-347 | the request is the current list; a reply is appended, and recorded if that succeeds; final, pending or failed |
| `ToolLoop.Run.RunTool` | agent_d/src/run/agent_run_loop.c:351-406 | one call: counted, answered, recorded if that succeeds, traced |
| `ToolLoop.Run.Step` | agent_d/src/run/agent_run_loop.c:411-435 | one round and its result code |
| `ToolLoop.Run.Loop` | agent_d/src/run/agent_run_loop.c:458-471 | the bounded loop computes the specified rounds |
| `ToolLoop.FirstUser` | agent_d/src/run/agent_run_loop.c:260-269 | the position of the first user message of the seed, or its length |
| `ToolLoop.RunToolLoop` | agent_d/src/run/agent_run_loop.c:245-486 | a whole run: verdict for every run, and every request starts with rules and history or prompt; shape, summary and pairing of every request over the groups of the script's rounds for runs not recorded, or recorded without a gap from a user message on |
| `SwapGate.Swap.Enter` | common/src/svc/svc_swap.c:47-62 | refused while draining, otherwise a ticket of the current generation |
| `SwapGate.Swap.Leave` | common/src/svc/svc_swap.c:64-80 | accepted iff the ticket's generation is current and not 0; counters follow |
| `SwapGate.Swap.BeginSet` | common/src/svc/svc_swap.c:88-93 | one drain at a time |
| `SwapGate.Swap.BeginWake` | common/src/svc/svc_swap.c:95-104 | drained iff nothing is in flight, timed out and counted iff something is and the deadline has passed, otherwise waiting |
| `SwapGate.Swap.Commit` | common/src/svc/svc_swap.c:109-128 | next generation, skipping 0; refused outside a drain |
| `SwapGate.SameGeneration` | common/src/svc/svc_swap.c:119-121 | two generations agree iff a multiple of 2^32 - 1 commits lies between them |
| `SwapGate.LeaveVerdict` | common/src/svc/svc_swap.c:47-80 | in every interleaving leave accepts a ticket iff the commits since its enter are a multiple of 2^32 - 1 |
| `SwapGate.Accounting` | common/src/svc/svc_swap.c:53-128 | in every interleaving the generation after n commits is 1 + n mod (2^32 - 1), never 0; enters = accepted + mismatch + inflight; a drained grant has no ticket outstanding; mismatch is 0 without a timed-out drain and never above the tickets overtaken by timed-out commits |
| `SwapGate.DrainOnlyShrinks` | common/src/svc/svc_swap.c:53-139 | while draining no step adds a ticket, and only commit or abort ends it |
| `SwapGate.WakeDecides` | common/src/svc/svc_swap.c:96-104 | in every interleaving a wakeup grants the drain, gives it up after the deadline only, or waits on |
| `SwapGate.TimeoutsAreExpiries` | common/src/svc/svc_swap.c:98-101 | in every interleaving the timeout counter is the number of wakeups after the deadline that found a ticket outstanding |
| `SwapGate.NoTimeoutBeforeDeadline` | common/src/svc/svc_swap.c:96-104 | a run in which no deadline passes counts no timeout and grants no drain as timed out |
| `NegCache.AgreesIffNamesFit` | common/src/daemon/daemon_rpc_neg.c:63-161 | for every call history, the table answers as the history iff no registered name has 128 characters or more |
| `NegCache.TableAgrees` | common/src/daemon/daemon_rpc_neg.c:73-161 | blocked at t iff among the first 8 distinct connected targets, k >= 1 failures since the last success, and t before the last failure plus the k-th back-off |
| `NegCache.RegisteredIffConnected` | common/src/daemon/daemon_rpc_neg.c:84-104 | only connected targets are registered, and all are while there is room |
| `NegCache.NeverConnectedNeverSkipped` | common/src/daemon/daemon_rpc_neg.c:131-145 | a target that never connected is never blocked |
| `NegCache.FailuresSpread` | common/src/daemon/daemon_rpc_neg.c:106-145 | the k-th failure in a row comes no sooner than the sum of the back-offs before it |
| `NegCache.AttemptsBounded` | common/src/daemon/daemon_rpc_neg.c:106-145 | in any history that tries a registered target only when due, at most 5 + T/30000 attempts in the T ms from its first failure |
| `NegCache.ClientTriesWhenDue` | common/src/daemon/daemon_rpc_client.c:333-348 | a client that goes through the connection entry tries a target that stays down only when the history allows it |
| `NegCache.OpenedIff` | common/src/daemon/daemon_rpc_client.c:333-348 | the connection entry skips while the history says so, and otherwise records success or failure |
| `NegCache.SuccessUnblocks` | common/src/daemon/daemon_rpc_neg.c:147-161 | a success is recorded, and its target is then tried again at any time |
| `NegCache.ClientAttemptsBounded` | common/src/daemon/daemon_rpc_client.c:333-348 | whatever a sequential client asks for, a registered target that stays down is tried at most 5 + T/30000 times in the T ms from its first failure |
| `NegCache.UnregisteredIsAlwaysTried` | common/src/daemon/daemon_rpc_neg.c:83-104 | a target that is not registered, one that connected when the table was full included, is tried at every ask |
| `NegCache.ComputeDelay` | common/src/daemon/daemon_rpc_neg.c:106-114 | the shift loop is 1000 * 2^(level-1), capped at 30000 |
| `NegCache.Cache.FindSlot` | common/src/daemon/daemon_rpc_neg.c:73-81 | first used slot with the name |
| `NegCache.Cache.IsBlocked` | common/src/daemon/daemon_rpc_neg.c:116-129 | answers as the history says, names fitting |
| `NegCache.Cache.RecordFail` | common/src/daemon/daemon_rpc_neg.c:131-145 | the table stays the table of the history with one more failure |
| `NegCache.Cache.RecordOk` | common/src/daemon/daemon_rpc_neg.c:84-161 | the table stays the table of the history with one more success |
| `NegCache.Cache.ConnOpen` | common/src/daemon/daemon_rpc_client.c:333-348 | tried iff not blocked; the outcome is recorded; never recorded as a failure while the history says to skip |
| `InvokeSessions.SessionSafety` | agent_d/src/service/service_invoke.c:279-402 | in every interleaving of requests whose ids fit, active ids are distinct, live tokens and active sessions are in one-to-one correspondence, no step touches a token that is not allocated |
| `InvokeSessions.NoFaultIffIdFits` | agent_d/src/service/service_invoke.c:289-355 | with requests under one further id x allowed, no run touches a token that is not allocated iff x fits its field |
| `InvokeSessions.CutIdIsConfused` | agent_d/src/service/service_invoke.c:321-354 | the run that shows it: a request under the cut id ends the session of the one whose id was cut |
| `InvokeSessions.HeldUntilEnd` | agent_d/src/rpc/agent_d_rpc.c:213-231 | with fitting ids, a token handed out stays live and with its request through every continuation of the run without that request's own end |
| `InvokeSessions.BusyIff` | agent_d/src/service/service_invoke.c:307-336 | begin reports busy iff the id is active or every slot is |
| `InvokeSessions.CancelReaches` | agent_d/src/service/service_invoke.c:357-381 | with fitting ids, cancel finds a token iff the request is in flight, and it is that request's token |
| `InvokeSessions.CancelTouchesOne` | agent_d/src/service/service_invoke.c:357-381 | with fitting ids, cancel flags the request's own token and no other request's; without a session nothing changes |
| `InvokeSessions.CancelAllReaches` | agent_d/src/service/service_invoke.c:383-402 | with fitting ids, cancel-all reaches every request in flight |
| `InvokeSessions.CancelAllExact` | agent_d/src/service/service_invoke.c:383-402 | with fitting ids, cancel-all flags the tokens of the requests in flight and no others, and counts those requests |
| `InvokeSessions.CancelledIffAsked` | agent_d/src/service/service_invoke.c:289-402 | over every run with fitting ids, the token of a request in flight is cancelled iff its request or all were cancelled since it began |
| `InvokeSessions.EndReleasesIffIdFits` | agent_d/src/service/service_invoke.c:321-381 | in any run with ids of any length, a request in flight gives its session back by ending iff its id fits; otherwise its end and cancel do nothing |
| `InvokeSessions.SessionTable.FindSlot` | agent_d/src/service/service_invoke.c:279-287 | first active slot with the id |
| `InvokeSessions.SessionTable.InvokeBegin` | agent_d/src/service/service_invoke.c:289-337 | table and result after begin, with its error paths |
| `InvokeSessions.SessionTable.InvokeEnd` | agent_d/src/service/service_invoke.c:339-355 | slot cleared and token destroyed, or nothing |
| `InvokeSessions.SessionTable.InvokeCancel` | agent_d/src/service/service_invoke.c:357-381 | the session's token is flagged, nothing else changes |
| `InvokeSessions.SessionTable.InvokeCancelAll` | agent_d/src/service/service_invoke.c:383-402 | every active session's token is flagged and counted |
| `AgentSlots.ServiceSafety` | agent_d/src/service/service_spawn.c:15-221 | in every interleaving the index maps id to slot i iff slot i is running or terminated under that id; total = ok + fail + spawning; lifetime successes are bounded by the table |
| `AgentSlots.TerminatedIsAbsorbing` | agent_d/src/service/service_invoke.c:30-53 | through every continuation of a run a terminated slot does not change, a registered one keeps its id, the used range only grows and never passes the maximum |
| `AgentSlots.FoundIff` | agent_d/src/service/service_invoke.c:17-39 | in every run terminate finds an agent iff some slot is registered under its name |
| `AgentSlots.TerminateStops` | agent_d/src/service/service_invoke.c:30-53 | looking an agent up and stopping it ends its slot and changes nothing else |
| `AgentSlots.RunsUntilStopped` | agent_d/src/service/service_invoke.c:41-49 | through every continuation of a run a running agent's slot does not change until it is terminated or reaped |
| `AgentSlots.SplitRollbackIff` | agent_d/src/service/service_spawn.c:151-162 | a reservation between the two halves of a rollback is harmless iff an earlier slot was free; otherwise it loses its id |
| `AgentSlots.SplitSpawnIff` | agent_d/src/service/service_spawn.c:98-169 | a whole spawn between the two halves of a rollback leaves the index exact iff an earlier slot was free |
| `AgentSlots.AgentService.FindFree` | agent_d/src/service/service_spawn.c:18-24 | first free slot of the used range |
| `AgentSlots.AgentService.ReserveSlot` | agent_d/src/service/service_spawn.c:15-62 | the service after the first spawn phase; succeeds iff memory allows and a slot is free or unused |
| `AgentSlots.AgentService.FinishSpawn` | agent_d/src/service/service_spawn.c:98-169 | registered and running, running without an index entry after a shutdown, or rolled back; and counted |
| `AgentSlots.AgentService.Terminate` | agent_d/src/service/service_invoke.c:17-53 | an indexed slot is terminated, nothing else changes |
| `AgentSlots.AgentService.List` | agent_d/src/service/service_stats.c:33-46 | the ids of the running slots, in order |
| `AgentSlots.ListedInOrder` | agent_d/src/service/service_stats.c:33-46 | the list of a row of slots is the lists of its parts in turn, a running slot giving its id and any other nothing |
| `AgentSlots.ListedIff` | agent_d/src/service/service_stats.c:33-46 | in every run the list holds exactly the names under which the index leads to a running slot |
| `AgentSlots.AgentService.CollectIdle` | agent_d/src/service/service_stats.c:90-97 | exactly the running slots with a child idle long enough |
| `AgentSlots.AgentService.VisitSlot` | agent_d/src/service/service_stats.c:103-113 | one visit, whatever happened since collecting: a slot still running with a child is terminated, any other left alone |
| `AgentSlots.AgentService.ReapIdle` | agent_d/src/service/service_stats.c:67-127 | exactly those are terminated, and as many ids leave the list |
| `ModelWatch.DriftIffChanged` | common/src/svc/svc_model_watch.c:99-141 | after any history of calls, edits and touches: on a readable file drift iff content differs from the baseline; no drift always means equal content |
| `ModelWatch.DetectedExact` | common/src/svc/svc_model_watch.c:118-133 | one test: touches are absorbed, the stored stamp stays a stamp of the baseline |
| `ModelWatch.RunIsAnchored` | common/src/svc/svc_model_watch.c:99-326 | a watch that is on always holds size, digest and a seen stamp of the last snapshot's content |
| `ModelWatch.LatchIsHistory` | common/src/svc/svc_model_watch.c:88-141 | the drift latch is set iff some reported drift is unresolved |
| `ModelWatch.ReportsIffNew` | common/src/svc/svc_model_watch.c:240-265 | a due tick that finds drift reports it iff no report is open or the file is missing |
| `ModelWatch.MissingIsReportedAgain` | common/src/svc/svc_model_watch.c:108-117 | after any history that leaves the watch on, two due ticks on a missing file both send the event |
| `ModelWatch.BetweenDrifts` | common/src/svc/svc_model_watch.c:211-326 | between two drift events lies a return to the baseline, a renewed baseline or a missing file |
| `ModelWatch.ReturnedIsBaseline` | common/src/svc/svc_model_watch.c:118-133 | that return means the baseline's content |
| `ModelWatch.WarnsIffNew` | common/src/svc/svc_model_watch.c:211-227 | a check that finds drift warns iff no warning is open or the file is missing |
| `ModelWatch.PendingStep` | common/src/svc/svc_model_watch.c:88-141 | the pending mark is set by a test that finds drift and cleared by the file's return or a renewed baseline only |
| `ModelWatch.ThrottledIff` | common/src/svc/svc_model_watch.c:245-249 | in every history a tick is skipped iff it comes after the last due tick by less than the hooked interval, or 5000 ms |
| `ModelWatch.HookedIff` | common/src/svc/svc_model_watch.c:229-238 | a callback is attached iff some call attached one |
| `ModelWatch.RebaseRenews` | common/src/svc/svc_model_watch.c:291-326 | a rebase to a readable file leaves the watch on, at rest and free of drift; an empty path turns it off; any other file leaves it off with its marks |
| `ModelWatch.ReloadActs` | common/src/svc/svc_model_watch.c:267-289 | refusal and failure leave the watch as it was, a failure is reported; success takes the new baseline and reports its digest and generation |
| `ModelWatch.DriftNamesBoth` | common/src/svc/svc_model_watch.c:163-174 | a drift event carries the baseline's digest and the new content's (0 when missing or unreadable), and the contents differ |
| `ModelWatch.GenerationCounts` | common/src/svc/svc_model_watch.c:267-289 | the generation is the number of applied reloads modulo 2^32 |
| `ModelWatch.HashBuffer` | common/src/svc/svc_model_watch.c:34-42 | the loop computes the digest: exclusive or and multiplication byte by byte, modulo 2^64 |
| `ModelWatch.Watcher.Init` | common/src/svc/svc_model_watch.c:200-209 | zeroed watch with its first snapshot, or refusal |
| `ModelWatch.Watcher.Detect` | common/src/svc/svc_model_watch.c:99-141 | verdict, latches and stamp after the drift test |
| `ModelWatch.Watcher.Check` | common/src/svc/svc_model_watch.c:211-227 | verdict and one-time warning |
| `ModelWatch.Watcher.Tick` | common/src/svc/svc_model_watch.c:240-265 | throttling, verdict, one-time event with both digests |
| `ModelWatch.Watcher.Reload` | common/src/svc/svc_model_watch.c:267-289 | failure or busy leaves the watch as it was; success rebases and moves the generation |
| `ModelWatch.Watcher.Rebase` | common/src/svc/svc_model_watch.c:291-326 | new snapshot, switched off, or invalid with latches kept |
| `HealthGate.EventsTellChanges` | common/src/daemon/daemon_dep.c:216-261 | for any reports and any clock, events without adjacent repeats are the accepted reports without adjacent repeats, minus a leading OK |
| `HealthGate.EventsBounded` | common/src/daemon/daemon_dep.c:216-261 | with a clock that does not go back, events are at most the edges plus T/60000 |
| `HealthGate.EmitsIff` | common/src/daemon/daemon_dep.c:226-260 | whether a report is emitted is decided by the last event alone: state changed, or not OK and a full window old |
| `HealthGate.RepeatsEveryMinute` | common/src/daemon/daemon_dep.c:250-260 | with a clock that has not gone back, a repeated state is emitted iff it is not OK and 60000 ms have passed since the last event |
| `HealthGate.RejectsUnknown` | common/src/daemon/daemon_dep.c:221-223 | reports of any state but 1, 2 and 3 are rejected and change nothing, and no other is |
| `HealthGate.ClockBackIsEmitted` | common/src/daemon/daemon_dep.c:251-260 | a repeated state other than OK whose clock is behind the last event, by up to 2^64 - 60000 ms, is emitted at once |
| `HealthGate.ClockBackBreaksBound` | common/src/daemon/daemon_dep.c:253-254 | so the bound needs a clock that does not go back: from every time but 0 there is a run that exceeds it |
| `HealthGate.DependencyGate.Submit` | common/src/daemon/daemon_dep.c:216-261 | verdict and gate after a report; unknown states and empty names change nothing |
| `RateLimit.AnySpanBounded` | gateway_d/src/protocol/gateway_llm_api.c:107-122 | every closed 60-second span, wherever it starts, admits at most 2 * rpm |
| `RateLimit.TwiceTheLimitIsReached` | gateway_d/src/protocol/gateway_llm_api.c:107-122 | for every rpm some run reaches that bound within two adjacent seconds |
| `RateLimit.WholeRunBounded` | gateway_d/src/protocol/gateway_llm_api.c:75-122 | a run admits at most rpm * (1 + elapsed/60) |
| `RateLimit.RefusedOnlyWhenFull` | gateway_d/src/protocol/gateway_llm_api.c:116-119 | a refusal means at least rpm admissions in the last 60 seconds |
| `RateLimit.UsedIsExact` | gateway_d/src/protocol/gateway_llm_api.c:112-118 | the counter is the number of admissions since the window opened |
| `RateLimit.Limiter.Check` | gateway_d/src/protocol/gateway_llm_api.c:107-122 | verdict and window after one request |

## Left out

- Runs of the stream and the tool loop assume that allocation succeeds; its failure is modelled call by call for `Buffer.Add`, session begin and agent spawn. A failed `ledger_append` is part of the runs.
- Reasoning and frame buffers are sequences; the capacity growth and NUL termination are modelled for the text buffer.
- The framing header: `isTag` is any predicate false on RS and on NUL (NUL is the "no frame" value of the tag field), FRAME_MAX any number from 2; the header is not part of this model.
- JSON bodies of frames, readiness lines and RPC replies: parse results are parameters; numbers are reals and token sums do not wrap at 64 bits.
- ToolLoop.RunToolLoop: the shape of requests is stated for runs that are not recorded, or recorded without a gap from a user message on; `ToolLoop.PairedIffEntered` and `ToolLoop.PairedIffUnrecorded` show that pairing fails otherwise.
- The content of older summaries across compactions: entries without an id are not submitted again.
- SwapGate.LeaveVerdict: assumes fewer than 2^32 requests in flight, one return per ticket, and commit or abort only by the thread whose begin returned; 64-bit statistics do not wrap. The wait itself is a sequence of wakeups, with no fairness claimed.
- NegCache.ClientAttemptsBounded: one sequential client, names below 128 characters; clocks as 64-bit milliseconds do not wrap.
- InvokeSessions.SessionSafety: ids of at most 63 characters (`NoFaultIffIdFits` shows that it fails otherwise), and end or poll only after a successful begin; a rejected token, private to its thread, is created and destroyed within the begin step.
- AgentSlots.ServiceSafety: the rollback is one step (the split one is `SplitRollbackIff` and `SplitSpawnIff`), generated ids are new, counters move with the step they belong to, and the service is not shut down during the run.
- AgentSlots.AgentService.ReapIdle: runs without interference between collecting and visiting; one visit after any interference is `VisitSlot`, and the interleaved form is the reap step of `ServiceSafety`.
- ModelWatch.DriftIffChanged: assumes that sightings of one path with the same stamp, or the same size and digest, have the same content, and that the file does not change within one call.
- Stale marker files, log lines, performance counters, event ids and the invoke counters.
- Sockets, pipes, processes, signals and polling; configuration parsing; RPC shells, gateway adapters, protocol detection, access control and service wiring: operating-system calls, thin delegation or short case splits.
- The scheduler, the supervisor, the memory engine and the notification queue.
