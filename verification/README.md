# Verified model of transit's asynchronous request machinery

transit runs Go handlers inside Envoy streams. A handler may finish at once, wait for an HTTP or gRPC callout, fan
out over several callouts, run a sequence of them, or continue on a goroutine; the completion may come inside the
call that started it, later, out of order, or after the stream has died. This project models that machinery and the
state around it in Dafny and proves what it keeps over every run.

`dafny verify dfyconfig.toml` checks everything.

## How the model is built

**Filter and handoff** (`FilterSpec`, `Filter`, `FilterRuns`, `Handoff`, `HandoffRuns`, `HandoffVerdicts`, `HandoffGo`,
`HandoffLimits`, `Callbacks`, `HandoffCas`, `Headers`, `HandleModel`).
`FilterSpec` is the filter of one stream as a value: mutation queues, the four-state handoff, the goroutine flags, and
every call made on the Envoy handle as a trace of effects. `FilterObject.Filter` is the object whose methods change
those fields in place; each method is proved to do what the value says, and `FilterRuns` drives the object through whole
requests and states the handoff on its own trace and return values. A handler or callback is arbitrary user code
that acts only through the Writer, so one invocation is the script of Writer calls it makes, and a statement for all
scripts is a statement for all handlers. A Writer call that panics in Go (a second callout, `Go` next to a callout) is
not part of a legal script. Envoy is the environment: it may accept or reject each callout, complete it inside the
starting call or later, and deliver duplicates of single and gRPC completions.

Two granularities are used. All modules but `HandoffCas` take callbacks as atomic on Envoy's worker thread: a
completion runs inside the call that started it or after the request callback returned. `HandoffCas` takes single
compare-and-swap steps in any interleaving, where the completion's two swaps (up/filter.go:592 and up/filter.go:599)
can be separated.

`Callbacks` states what each request callback returns and leaves for every configuration, and where the body bytes go.
`HandleModel` gives the handle calls and the Writer calls a meaning of their own, on headers, filter state, metrics,
metadata, host override and body, and proves that a flush does to the handle what the Writer calls asked for.

**Batches and sequences** (`AllSettled`, `CalloutSequence`) are the objects Envoy calls back for
`HTTPCalloutAllSettled` and `HTTPCalloutSequence`, as values and as classes. The filter's state holds the values; the
classes are separate refinements, proved to compute the same values.

**Async host selection** (`Promise`, `Selection`, `Completion`, `SelectionObject`). `Selection` interleaves the lock-protected sections of
any number of selections: the choose-host export, the promise, the scheduled closure, Envoy's cancellation, and the
handle table. `Completions` holds the completion and the sharded table as classes. `SelectionObject` shows that
uninterrupted calls on the completion object are runs of the selection's steps; the table class is a separate refinement
whose `Contents` is the map that `Selection` updates.

**Host sets** (`HostSet`, `HostSetObject`, `RefreshLoop`) cover the diff, the add-publish-remove order, and the
coalescing refresh loop with `Stop`. Keys are an abstract type; `AddHosts` returns fresh, distinct pointers.

**Sequence refinements** (`Ring`, `MemStore`) and **codec and routing** (`Base64`, `Session`, `SessionCodec`,
`SessionLayout`, `ShardRouter`, `ShardDecision`). Where Go iterates over a map, the Dafny methods pick the next key arbitrarily, and
the lemmas speak of every listing of the keys.

## Where the code and its comments differ

- up/writer.go:44-61 speaks of one compare-and-swap per side; the completion does two. `FlushedUnlessSplit` says
  exactly which interleavings lose the request, `SplitHappens` gives one.
- up/host_refresh_loop.go:116-133: `Stop` does not wait for a scheduled apply; it makes sure that none takes effect.
  `StopReturnsTooEarly` gives a run, `StopHasWaitedIff` the exact condition.
- up/buffer/buffer.go:39-53: after `Bytes` on a full ring the ring is empty, so later writes do not continue the old
  contents. `Write` with bytes to a ring of size 0 never returns (`WriteReturnsIff`), hence the precondition of
  `Rings.Ring.Write`.
- up/host_set.go:20-33 reads a missing metadata key as the empty string, so a spec with an empty metadata value can be
  taken for a different one (`SpecEqualIsEqualityIff`, `DifferentSpecsCompareEqual`), and the old spec stays published
  (`PublishedSpecsExactIff`).
- up/async_host_selector.go:93-128: a cancellation that lands between the closure's check and its `Complete` leaves
  its entry in the selector's `cancelled` map (`CancelledEntryRemainsIff`, `CancelledEntryCanRemain`).
- down/abi_impl/cluster.go:858-866: when the selection ends before `SetFinishFn`, choose-host returns a token that is
  already freed and may be given to another selection (`HandleReachesIff`, `HandleCanReachAnother`).
- up/filter.go:290-296: after a local response the queues are kept, so another flush applies them
  (`SecondFlushIsEmptyIff`). With a body handler the next frame makes that flush: it applies what the rejected callback
  had queued, clears the stop flag and lets the request through (`BodyHandlerReleasesRejectedRequest`,
  `RejectedRequestIsReleased`). Whether Envoy still delivers a frame after a local response is up to Envoy.
- up/filter.go:472-545: a started goroutine does not hold a body frame when there is no body handler, and a paused
  callout does not hold one when there is (`GoDoesNotHoldTheBody`, `BodyHandlerReleasesPausedRequest`). A single callout
  started by such a body handler, even a rejected one, also discards the paused callout's callback
  (`PausedCallbackSurvivesIff`).
- up/filter.go:482-545: with both a filled Envoy buffer and a non-empty last frame, content-length is the length of
  one of them only (`ContentLengthMatchesBody`, `ContentLengthCanBeWrong`).
- examples/cluster-shard-router/router.go:172-230: two names that normalise alike, or two active shards with the same
  prefix, make the result depend on map order (`ResolveOrderIndependentIff`, `ClashingNamesDependOnOrder`,
  `EveryTagOrderIndependentIff`, `SharedPrefixDependsOnOrder`).

## Model

| member | source | states |
|---|---|---|
| Handoff.QueuesAreProjections | up/writer.go:322-545 | queueing any list of Writer mutations appends to each queue exactly the mutations of its kind in order; the first local response and the last override and body win |
| Handoff.FlushAppliesEachOnce | up/filter.go:290-370 | whatever list of mutations a handler queues on an empty filter, flush applies each exactly once, sorted by kind and in order within it, and a second flush does nothing; with a rejection among them it sends the first response alone |
| HandleModel.FlushDoesWhatWasAsked | up/filter.go:290-370 | on a model of the handle, a flush leaves the state that the Writer calls, acting at once and in their own order, would have left, then the framing strip, the new body with its length and the resumption; a rejection leaves only its response |
| HandleModel.GaugeCalls | up/filter.go:328-337 | setting a gauge assigns it, incrementing adds and decrementing subtracts |
| HandleModel.BufferFollowsHandle | up/filter.go:351-365 | what the filter takes for Envoy's buffer is the buffer the handle calls leave |
| Handoff.SecondFlushIsEmptyIff | up/filter.go:280-296 | a flush that sent a response leaves the queues, so a second flush is without effect exactly when nothing was rejected or nothing but responses and inapplicable bodies was queued |
| Handoff.ScriptQueues | up/writer.go:322-816 | from any state, paused ones included, a handler makes no call on the handle and queues its mutations in order |
| Handoff.StartHandling | up/writer.go:607-816 | starting any of the four callouts only queues: afterwards it is Active with its callback outstanding, or Done with its callback run inside the call |
| Handoff.ScriptOnlyQueues | up/writer.go:322-816 | a whole handler makes no call on the handle, and its queues hold its mutations, with those of callbacks run inside it, in order |
| Handoff.ArmedIsOwed | up/writer.go:691-816 | an outstanding user callback on a live stream always has a delivery that Envoy still owes |
| Handoff.AdvanceSound | up/filter.go:580-600 | a delivery runs the user's callback exactly when it ends the outstanding callout, for all four kinds |
| HandoffRuns.HeadersOutcome | up/filter.go:380-448 | without a body handler and without Go, OnRequestHeaders either pauses with everything queued and nothing sent, or flushes once and returns Stop exactly when a local response was sent |
| HandoffRuns.PausedRun | up/filter.go:472-600 | a paused callout over every later run in which no request handler runs: flushed once at the delivery that runs its callback, else everything stays held |
| HandoffRuns.SettledRun | up/filter.go:472-600 | after the flush, in every run in which no request handler runs, no later event makes a call on the handle, and request callbacks keep one answer |
| HandoffRuns.HandoffTheorem | up/filter.go:380-621 | for every handler that does not call Go, every kind of callout and every later run, without a body handler: mutations of handler and callback are flushed exactly once; ContinueRequest follows exactly when the callback paused and no local response is queued; no callback returns Continue before |
| HandoffRuns.BodyHandoffTheorem | up/filter.go:472-621 | the same handoff for every frame on which the body handler runs, streamed or buffered and without Go: with nothing pending its mutations are on the handle when the callback returns and nothing stays queued unless a response was sent |
| HandoffRuns.DeadStreamIsSilent | up/filter.go:586-590 | on a completed stream no delivery or goroutine event makes a call on the handle |
| RequestCallbacks.HeadersCallback | up/filter.go:380-448 | for every configuration, handler and synthetic body call: Continue exactly when no Writer call leaves work outstanding, nothing rejects and no body is to be buffered; the exact trace, queues and strip mark |
| RequestCallbacks.GoHandoffAnyFilter | up/filter.go:406-438 | the goroutine handoff for every configuration, from the header handler or the synthetic body call, when no later handler runs |
| RequestCallbacks.GoBodyHandoff | up/filter.go:508-518 | the goroutine handoff when the body handler calls Go on a frame |
| RequestCallbacks.HeldFrame | up/filter.go:482-484 | a frame of a buffered body before the last is held: the buffer grows by it, nothing else changes, Stop |
| RequestCallbacks.HeldFrames | up/filter.go:482-484 | any number of such frames leaves their concatenation in Envoy's buffer, in order |
| RequestCallbacks.HandlerSeesWholeBody | up/filter.go:486-500 | the handler of a buffered body is given all frames in one piece, when the last one is empty or the only one |
| RequestCallbacks.StreamedBody | up/filter.go:486-545 | a streamed body whose handlers neither wait nor reject: every frame is let through with its own bytes, with its mutations on the handle, once and in order |
| RequestCallbacks.BytesConserved | up/filter.go:472-481 | without a body handler, over every run, bytes sent upstream and then bytes held are the bytes received, each once and in order |
| HandoffVerdicts.EndOfStreamHandoffTheorem | up/filter.go:415-438 | the same handoff when headers end the stream and the body handler is called on the same Writer |
| HandoffVerdicts.ImmediateVerdict | up/filter.go:290-296 | without a body handler, a handler that leaves nothing pending and does not call Go: if it rejects, the trace is exactly its first local response and no later callback returns Continue; otherwise no response is sent and all return Continue; ContinueRequest is never called |
| HandoffVerdicts.PausedVerdict | up/filter.go:406-554 | without a body handler, a paused callout whose callback ran: if the handler or the callback rejects, exactly one local response, no ContinueRequest, never Continue; otherwise exactly one ContinueRequest and Continue only afterwards |
| HandoffGo.CompletedStreamIsSilent | up/filter.go:636-681 | for every filter and run: after OnStreamComplete no callout, batch, sequence, gRPC or goroutine path flushes or resumes |
| HandoffGo.ResumedAtMostOncePerGo | up/writer.go:565-597 | for every filter and run, every ContinueRequest on the trace came from a completion or a scheduled finish, and the finishes made at most one per call of Go in the header handler, its synthetic body call and the later body handlers |
| HandoffGo.GoHandoffTheorem | up/writer.go:565-597 | without a body handler, for every handler that calls Go and every later run: what the handler and the goroutine queued is flushed exactly once, with ContinueRequest unless rejected, at the scheduled finish; nothing at all if the stream completes first; else the finish is still owed. Before the finish a request callback returns Stop exactly when a local response is queued by then, afterwards exactly when one was sent |
| HandoffGo.ResumedAtMostOncePerStart | up/filter.go:592-621 | for every filter and run, completions call ContinueRequest at most once per callout Envoy accepted, so the whole trace has at most one per Go call or accepted callout |
| HandoffLimits.GoDoesNotHoldTheBody | up/filter.go:472-481 | without a body handler, a body callback after stopped headers returns Continue exactly when a goroutine was started and nothing was rejected |
| HandoffLimits.GoReleasesTheBody | up/filter.go:410-481 | a concrete run in which a started goroutine does not hold the first body frame |
| HandoffLimits.BodyHandlerReleasesPausedRequest | up/filter.go:482-545 | with a body handler, for every legal handler script: a frame during a paused callout returns Continue exactly when the handler runs on it, leaves no goroutine or callout of its own outstanding, and no local response is queued |
| HandoffLimits.PausedRequestIsReleased | up/filter.go:482-545 | a concrete run in which the body handler's first frame releases a request whose header callout is paused |
| HandoffLimits.BodyHandlerReleasesRejectedRequest | up/filter.go:482-545 | with a body handler, after a local response was sent: a frame returns Continue exactly when the handler runs on it, leaves no work of its own outstanding and does not reject again; then the mutations left over from the rejected callback are applied and the stop flag is cleared |
| HandoffLimits.RejectedRequestIsReleased | up/filter.go:290-296 | a concrete run: the response is sent, and the next frame applies the rejected handler's header mutation and is let through |
| HandoffLimits.PausedCallbackSurvivesIff | up/writer.go:614-629 | after such a frame the paused single callout's callback is still to run exactly when the body handler started no single callout of its own, accepted or rejected |
| HandoffLimits.PausedCallbackIsLost | up/writer.go:614-629 | if it did, no later delivery runs that callback or reaches the handle |
| HandoffLimits.RejectedCalloutLosesCallback | up/writer.go:625-630 | a concrete run in which one rejected callout in the body handler releases the request and forgets the paused callback |
| HandoffCas.OneOwner | up/writer.go:44-61 | for every interleaving of single swaps at most one side flushes, and only after the user's callback returned |
| HandoffCas.FlushedUnlessSplit | up/filter.go:592-621 | when both sides are through, the flush happened exactly once if and only if the pause did not land between the completion's two swaps |
| HandoffCas.SplitIff | up/filter.go:592-621 | whether the handoff loses its owner is decided by the order of the pause and the two swaps alone |
| HandoffCas.SplitHappens | up/filter.go:592-599 | a concrete interleaving that leaves Paused with no owner |
| HandoffCas.DisciplinedHandoffFlushes | up/grpc.go:154-159 | under the worker-thread discipline every completed handoff has flushed exactly once |
| FilterObject.Filter.Flush | up/filter.go:290-370 | the loops over the queues produce exactly the flush of the specification |
| FilterObject.Filter.FinishCallout | up/filter.go:591-600 | the two swaps after the callback: flush and resume from Paused, Done from Active |
| FilterObject.Filter.PausePendingCallout | up/filter.go:606-611 | pauses exactly a started callout that is still Active |
| FilterObject.Filter.FlushCompletedCallout | up/filter.go:616-621 | claims exactly a started callout that is Done |
| FilterObject.Filter.StartCallout | up/writer.go:607-754 | accepted, rejected and synchronous starts of all four kinds |
| FilterObject.Filter.Deliver | up/filter.go:580-600 | a delivery on a live or dead stream, duplicates included |
| FilterObject.Filter.GoReturns | up/writer.go:579-586 | the goroutine's mutations are queued, and a finish is scheduled unless the stream completed |
| FilterObject.Filter.GoFinish | up/writer.go:586-595 | the scheduled finish flushes and resumes unless arbitration was lost |
| FilterObject.Filter.OnRequestHeaders | up/filter.go:380-448 | the whole headers callback, with the synthetic body call at end of stream |
| FilterObject.Filter.OnRequestBody | up/filter.go:472-545 | the whole body callback, buffered or streaming, mutable or read-only |
| FilterObject.Filter.EndReplacedBody | up/filter.go:523-536 | a replaced body: flush first, then body and length where Envoy forwards from |
| FilterRuns.Serve | up/filter.go:380-681 | a new filter object driven through its header callback and any legal list of later events ends in the specified state with the specified return values, and its trace has at most one ContinueRequest per Go call and per accepted callout |
| FilterRuns.ServeWithoutBodyHandler | up/filter.go:380-681 | the object's own trace and return values for every request without a body handler: one flush, at once, at the delivery or at the goroutine's finish, with one local response or at most one ContinueRequest; a pending callback keeps every request callback from Continue until its flush, while before a goroutine's finish a request callback returns Stop exactly when a local response is queued by then |
| AllSettled.SettleKeepsValid | up/writer.go:701-730 | settling a slot keeps the count of unsettled slots right and calls back exactly at the last one |
| AllSettled.CalledOnceWithEverySlot | up/writer.go:644-730 | for every order of settlement the callback runs exactly once when all slots are settled and never before, with slot i holding the result of request i |
| AllSettled.OrderIndependent | up/writer.go:634-730 | the vector does not depend on the order of completions |
| AllSettled.AllSettledBatch.Finish | up/writer.go:701-730 | the in-place settlement is the one of the specification |
| AllSettled.LaunchBatch | up/writer.go:660-689 | the launching loop, with rejected and synchronous callouts |
| CalloutSequences.SequenceRun | up/writer.go:738-816 | next sees attempts 0, 1, 2, ... and the preceding response, at most one callout is in flight, done runs exactly once on a live stream, when nothing is in flight, with all responses |
| CalloutSequences.SequenceCollects | up/writer.go:765-799 | the responses are the outcomes in attempt order, synchronous and rejected ones included |
| CalloutSequences.ImmediateOutcomes | up/writer.go:779-798 | a refusal is recorded by its code, an answer by its result and body |
| CalloutSequences.DeadSequenceIsSilent | up/writer.go:765-816 | after the stream is done neither next nor done is called |
| CalloutSequences.CalloutSequence.RunStep | up/writer.go:765-799 | the in-place step with its synchronous re-entry |
| CalloutSequences.CalloutSequence.OnAnswer | up/writer.go:779-789 | an asynchronous answer is recorded and the next step taken |
| Grpc.FrameRoundTrip | up/grpc.go:164-195 | a frame decodes to its message, whatever follows, exactly when the length fits in 32 bits |
| Grpc.FrameBytes | up/grpc.go:164-170 | flag 0, the four length bytes from the most significant down, the message |
| Grpc.DecodeReads | up/grpc.go:182-195 | exactly which inputs decode, and to which bytes, with the first length byte most significant |
| Grpc.DecodedFrameIsAFrame | up/grpc.go:182-195 | input that decodes starts with the frame of the decoded message |
| Headers.ViewAgrees | up/writer.go:133-169 | for every base list and mutation queue the view and Envoy's map have the same values for each case-insensitive name |
| Headers.ViewMatchesFlush | up/filter.go:297-350 | RequestHeaders shows what the flush will leave, when no local response, strip or body replacement is pending |
| Common.ItoaIsDecimal | up/filter.go:534-534 | a length is written in decimal digits, most significant first, without leading zeros |
| Common.FoldIsLowerCase | up/writer.go:171-179 | names are compared with the letters A to Z in lower case and nothing else changed |
| Headers.RemoveRequestHeader | up/writer.go:171-179 | in-place compaction keeps exactly the other entries in order |
| Headers.ApplyRequestHeaderMutation | up/writer.go:160-169 | one mutation applied to the list in place |
| Headers.RequestHeaders | up/writer.go:133-146 | the computed view is the view of the specification |
| Headers.FlushStripsFraming | up/filter.go:297-319 | a strip-marked flush leaves no transfer-encoding, and a content-length only as the length of a body it wrote itself |
| Headers.HeaderPhaseStripsFraming | up/filter.go:401-404 | in mutable buffered mode no framing header survives the header phase, for every handler that neither rejects nor waits |
| Headers.ContentLengthMatchesBody | up/filter.go:482-564 | on Continue at end of stream content-length equals the forwarded body's length exactly when the buffer or the frame is empty |
| Headers.ContentLengthCanBeWrong | up/filter.go:482-564 | a concrete request, one buffered frame and a non-empty last one, that forwards two bytes with another content-length |
| Promise.EveryRun | up/stream_promise.go:52-134 | for every interleaving, re-entrant registration included: the value is the argument of the first Resolve, each callback runs at most once with it, none after its cancel took effect, pending ones in registration order |
| Promise.EveryDrainedRun | up/stream_promise.go:52-134 | once resolved and drained, every registration ran exactly once unless its cancel took effect first |
| Promise.DrainAllFires | up/stream_promise.go:62-88 | draining calls every remaining registration that is not canceled, once, in order, with the value |
| Promise.StreamPromise.Resolve | up/stream_promise.go:52-88 | refused the second time without effect; the first time the calls made are those of the registrations not canceled, in order, with v |
| Promise.StreamPromise.OnResolve | up/stream_promise.go:114-134 | registers before resolution, calls at once after it |
| Promise.StreamPromise.CancelCallback | up/stream_promise.go:128-133 | cancels a registration in place |
| Promise.StreamPromise.Result | up/stream_promise.go:96-106 | the value, or nothing before resolution |
| Selection.FirstTerminalActionWins | down/cluster.go:63-147 | for every interleaving: one completion at most and none if Cancel won, one free at most, and the token is in the table exactly while it is to be freed |
| Selection.FreedExactlyOnce | down/abi_impl/cluster.go:858-891 | once a terminal action and SetFinishFn have both happened the token has been freed exactly once and is gone |
| Selection.NotFreedEarly | down/abi_impl/cluster.go:858-872 | before a terminal action nothing is freed and the token stays valid |
| Selection.CancelledEntryRemainsIff | up/async_host_selector.go:93-128 | once the closure has run and the cancellation was announced, the selector's cancelled entry remains exactly when the schedule runs the closure before the announcement |
| Selection.HandleReachesIff | down/abi_impl/cluster.go:858-891 | the handle returned for a selection reaches it until it is freed, then never again, and reaches another selection exactly when the schedule recorded one under the same token since and it is still in use |
| Selection.HandleCanReachAnother | down/abi_impl/cluster.go:858-866 | a concrete interleaving in which a late SetFinishFn frees the token before choose-host returns it, and cancelling through it cancels another selection |
| Selection.CancelledEntryCanRemain | up/async_host_selector.go:105-128 | a concrete interleaving that leaves the entry behind |
| Completions.ClusterLBCompletion.Complete | down/cluster.go:63-79 | the first terminal action calls Envoy and the cleanup, later ones are refused |
| Completions.ClusterLBCompletion.Cancel | down/cluster.go:112-127 | a winning cancel never calls the completion function |
| Completions.ClusterLBCompletion.SetFinishFn | down/cluster.go:95-110 | the cleanup is kept for the terminal action, or run at once after it |
| SelectionObject.CompleteAsSteps | down/cluster.go:63-79 | an uninterrupted Complete on the object is the selection's locked step, call and cleanup, and the object keeps standing for the selection |
| SelectionObject.CancelAsSteps | down/cluster.go:112-127 | the same for Cancel |
| SelectionObject.SetFinishAsSteps | down/cluster.go:95-110 | the same for SetFinishFn, before and after the terminal action |
| Completions.Manager.Record | down/abi_impl/internal.go:33-40 | the sharded table as one map gains the token |
| Completions.Manager.Unwrap | down/abi_impl/internal.go:42-50 | a lookup in the one shard finds exactly the recorded tokens |
| Completions.Manager.Remove | down/abi_impl/internal.go:52-61 | the token is forgotten and freed, nil ignored |
| HostSets.CompareSpecs | up/host_set.go:20-33 | the comparison loop |
| HostSets.SpecEqualIsEqualityIff | up/host_set.go:20-33 | specEqual is equality exactly for specs without an empty metadata value |
| HostSets.DifferentSpecsCompareEqual | up/host_set.go:20-33 | two different specs, each with one empty metadata value, that specEqual takes for equal |
| HostSets.ApplyKeepsExact | up/host_set.go:58-104 | at every step inside Apply published pointers are live and distinct; afterwards the live set is the published set and a key keeps its pointer exactly when its spec compares equal |
| HostSets.PublishedSpecsExact | up/host_set.go:58-104 | the published specs are the snapshot's when no published one has an empty metadata value |
| HostSets.PublishedSpecsExactIff | up/host_set.go:58-104 | the next Apply publishes the snapshot's own specs, for every snapshot and all fresh pointers, exactly when no spec published now has an empty metadata value |
| HostSets.EveryApply | up/host_set.go:58-104 | for every sequence of snapshots no published pointer dangles, none leaks, and the keys are the last snapshot's |
| HostSets.EveryPlainApply | up/host_set.go:58-104 | for every sequence of snapshots without empty metadata values the published specs are the last snapshot's |
| HostSets.DiffCounts | up/host_refresh_loop.go:269-289 | the counting loops give the sizes of the added, removed and unchanged key sets |
| HostSets.CountsAddUp | up/host_refresh_loop.go:269-289 | Added + Unchanged is the snapshot's size, Added the pointers handed out, Removed plus changed keys the pointers taken back |
| HostSetObject.HostSet.Apply | up/host_set.go:58-104 | the in-place Apply is the specified one, and every state visible in between is safe |
| RefreshLoops.EveryRun | up/host_refresh_loop.go:212-265 | over every run at most one ticker apply is outstanding, pending tracks it, hosts are exact and every report balances |
| RefreshLoops.EveryRunApplies | up/host_refresh_loop.go:138-265 | over every run the hosts are the result of applying, in the order they ran, the snapshots of the RefreshOnce calls and scheduled fetches whose closures ran on the open loop, read off the schedule |
| RefreshLoops.ClosurePublishes | up/host_refresh_loop.go:243-264 | right after a closure ran on an open loop the published keys are its snapshot's, and the specs too when no snapshot has an empty metadata value |
| RefreshLoops.RefreshOncePublishes | up/host_refresh_loop.go:138-195 | a RefreshOnce whose closure runs next publishes its own snapshot |
| RefreshLoops.NothingAppliesAfterStop | up/host_refresh_loop.go:119-133 | once Stop has closed the loop nothing is applied or reported, whatever is still scheduled |
| RefreshLoops.StopHasWaitedIff | up/host_refresh_loop.go:116-133 | when Stop has returned the queue is empty exactly when every scheduled closure of the schedule has run, and a ticker apply is outstanding exactly when pending is set |
| RefreshLoops.StopReturnsTooEarly | up/host_refresh_loop.go:116-133 | a concrete run in which Stop returns with an apply still scheduled |
| RefreshLoops.HostRefreshLoop.ClaimApply | up/host_refresh_loop.go:233-240 | the ticker claims the one pending apply, or skips |
| RefreshLoops.HostRefreshLoop.RunApply | up/host_refresh_loop.go:243-264 | a scheduled apply takes effect only on an open loop |
| Rings.ChunkingDoesNotMatter | up/buffer/buffer.go:27-37 | for every chunking a ring holds the last bytes of the stream and a head slab the first |
| Rings.HeadAndTailCover | up/buffer/buffer.go:69-109 | head and tail cover the stream exactly when it is not longer than both sizes together |
| Rings.ThreeReversals | up/buffer/buffer.go:39-53 | reversing both parts and then the whole rotates |
| Rings.RotateInPlace | up/buffer/buffer.go:39-53 | three reversals in the array bring the oldest byte to the front |
| Rings.Ring.Write | up/buffer/buffer.go:27-37 | terminates and keeps the last bytes of contents plus input |
| Rings.WriteReturnsIff | up/buffer/buffer.go:27-37 | the loop runs out of bytes after some number of passes exactly when the ring has positive size or there is nothing to write |
| Rings.PassStallsIff | up/buffer/buffer.go:28-31 | a pass copies nothing of a non-empty rest exactly when the ring has size 0 |
| Rings.Ring.TakeBytes | up/buffer/buffer.go:39-53 | returns the contents oldest first, and empties a full ring |
| Rings.Ring.Len | up/buffer/buffer.go:62-67 | the number of bytes held |
| Rings.HeadTail.Write | up/buffer/buffer.go:103-109 | the head keeps the first bytes and the tail the last |
| Rings.RecordTail | up/buffer/buffer.go:22-53 | a stream written to a new ring in any chunks and then read gives its last bytes, oldest first |
| Rings.RecordEnds | up/buffer/buffer.go:93-121 | a stream written to a new HeadTail in any chunks and then read gives its first and last bytes, and all of it when it is not longer than both sizes together |
| MemStores.MemStore.Insert | examples/request-ui/sink/sink.go:546-566 | the log grows by the stamped batch, with consecutive ids, and the ring holds its last records |
| MemStores.MemStore.RunQuery | examples/request-ui/sink/sink.go:568-614 | a query answers as filtering, ordering and cutting the last records of the log |
| MemStores.AnswerHolds | examples/request-ui/sink/sink.go:579-602 | an answer holds only records that pass the filters by their fields, in the order asked for, up to the limit, and leaves out none that passes for one further along |
| MemStores.SelectedIff | examples/request-ui/sink/sink.go:580-614 | since, errors-only and case-insensitive search, each by its own meaning |
| MemStores.StampHolds | examples/request-ui/sink/sink.go:551-556 | a stored record has the next id, its own time or the current one, and is otherwise unchanged |
| MemStores.PollReturns | examples/request-ui/sink/sink.go:568-614 | an ascending poll returns the records after the last seen id, or the oldest still held |
| MemStores.PollSkipsNothingIff | examples/request-ui/sink/sink.go:568-614 | the next unseen record is delivered exactly when it has not been evicted |
| MemStores.PollsDeliverInOrder | examples/request-ui/sink/sink.go:568-614 | repeated polls between inserts deliver every larger id exactly once and in order while nothing unseen is evicted |
| Base64.RoundTrip | examples/mcp-profile-router/session.go:38-38 | every byte string decodes from its encoding, as in section 4 of RFC 4648 |
| Base64.CharIsAlphabet | examples/mcp-profile-router/session.go:38-38 | a value is written as the character at its place in table 1 of RFC 4648 |
| Base64.ValueIsPosition | examples/mcp-profile-router/session.go:72-72 | a character has a value exactly when it is in that table, and the value is its place |
| Base64.EncodeMeetsStandard | examples/mcp-profile-router/session.go:38-38 | length, padding and every 24-bit group of an encoding are those of section 4 of RFC 4648 |
| Base64.StandardIsUnique | examples/mcp-profile-router/session.go:38-38 | the standard leaves no choice: one text per byte string meets it |
| Base64.DecodeAcceptsIff | examples/mcp-profile-router/session.go:72-72 | exactly the texts of whole groups with padding at the end are accepted |
| Base64.DecodeMeetsStandard | examples/mcp-profile-router/session.go:72-72 | accepted texts yield the bytes of their 24-bit groups, with unused bits of a padded group ignored |
| Base64.NewlineIgnored | examples/mcp-profile-router/session.go:72-72 | a newline or carriage return anywhere does not matter |
| Base64.EncodedCharacters | examples/mcp-profile-router/session.go:38-38 | an encoding contains no delimiter of the session format and no newline |
| Sessions.RoundTripIff | examples/mcp-profile-router/session.go:23-79 | a session survives encoding and decoding exactly when route and profile have no '@' and backend ids are non-empty without '@', ',' and ':'; any subject and any values |
| Sessions.EncodeInjective | examples/mcp-profile-router/session.go:23-41 | different well-formed sessions have different encodings |
| Sessions.DecodedWellFormed | examples/mcp-profile-router/session.go:43-79 | whatever decodes is well formed, for every input |
| Sessions.SortedUnique | examples/mcp-profile-router/session.go:81-88 | a set of keys has one sorted listing, so the encoding is canonical |
| SessionCodec.SortStrings | examples/mcp-profile-router/session.go:90-96 | insertion sort in place: ascending, and a permutation |
| SessionCodec.SortedStringKeys | examples/mcp-profile-router/session.go:81-88 | for every map iteration order the keys come out in the one sorted listing |
| SessionCodec.EncodeCompositeSession | examples/mcp-profile-router/session.go:23-41 | the builder loop writes the encoding, whatever the map order |
| SessionCodec.DecodeCompositeSession | examples/mcp-profile-router/session.go:43-79 | the parser, with its three kinds of error |
| SessionLayout.EncodeLayout | examples/mcp-profile-router/session.go:23-41 | the text is route, profile and subject each followed by @, then id, colon and base64 value of each backend, separated by commas, ids ascending |
| SessionLayout.EncodeExample | examples/mcp-profile-router/session.go:23-41 | route r, profile p, subject s and backend a with value hi give r@p@s@a:aGk= |
| SessionLayout.LessAtFirstDifference | examples/mcp-profile-router/session.go:90-96 | keys are compared at their first differing byte, a proper prefix first |
| SessionLayout.InvalidSessionIff | examples/mcp-profile-router/session.go:43-57 | a text is refused as a session id exactly when it has fewer than three @ |
| SessionLayout.EntriesInOrder | examples/mcp-profile-router/session.go:67-77 | entries are read left to right: the first bad one decides the error, the last of an id its value |
| ShardRouter.NormalizeTokenIdempotent | examples/cluster-shard-router/router.go:307-309 | normalised tokens are fixed points |
| ShardRouter.NormalizeTokenMeans | examples/cluster-shard-router/router.go:307-309 | a token loses exactly its blanks at both ends and is put in lower case |
| ShardRouter.NormalizePrefixes | examples/cluster-shard-router/router.go:290-305 | the deduplicating loop |
| ShardRouter.PrefixesContents | examples/cluster-shard-router/router.go:290-305 | exactly the non-empty normalised prefixes, each once |
| ShardRouter.PrefixesIdempotent | examples/cluster-shard-router/router.go:290-305 | a normalised prefix list is left alone |
| ShardRouter.ChooseShard | examples/cluster-shard-router/router.go:206-230 | the two loops, for whatever map order |
| ShardRouter.ChosenRoute | examples/cluster-shard-router/router.go:206-230 | for every order: an active shard with the longest matching prefix, or the default when none matches |
| ShardRouter.OrderIndependentIff | examples/cluster-shard-router/router.go:206-230 | the choice is the same for every order exactly when the longest claimants are one route |
| ShardRouter.EveryTagOrderIndependentIff | examples/cluster-shard-router/router.go:206-230 | a resolved snapshot routes every tag independently of order exactly when no two active shards share a prefix |
| ShardRouter.SharedPrefixDependsOnOrder | examples/cluster-shard-router/router.go:213-224 | two active shards with one prefix, and two map orders that route the same tag differently |
| ShardDecision.ResolveConfigSnapshot | examples/cluster-shard-router/router.go:163-204 | the resolving loop with its early returns, for whatever map order |
| ShardDecision.ResolveResult | examples/cluster-shard-router/router.go:163-204 | resolution succeeds exactly when every shard is usable and the default is configured, and gives a snapshot routing can rely on |
| ShardDecision.ResolveErrors | examples/cluster-shard-router/router.go:174-202 | resolution that fails reports a fault the configuration has |
| ShardDecision.EntryFields | examples/cluster-shard-router/router.go:184-198 | a route field by field: the name stands in for a missing shard name and, except for default, for missing prefixes |
| ShardDecision.DefaultNameMeans | examples/cluster-shard-router/router.go:166-171 | the configured default, or the shard called default |
| ShardDecision.ResolveOrderIndependentIff | examples/cluster-shard-router/router.go:172-199 | the snapshot does not depend on map order exactly when names that normalise alike give the same route |
| ShardDecision.ClashingNamesDependOnOrder | examples/cluster-shard-router/router.go:172-199 | two names that differ in case, and two map orders that keep different targets |
| ShardDecision.DerivedTagIsNormal | examples/cluster-shard-router/router.go:232-251 | a derived tag is a normalised token, hash tags included |
| ShardDecision.TagPrecedence | examples/cluster-shard-router/router.go:232-246 | the tag is the first that is given of x-transit-tag, x-byok-key-id, x-user-key and x-tenant, keys by their hash |
| ShardDecision.TagDefault | examples/cluster-shard-router/router.go:141-144 | without any of them the tag is the default shard's name |
| ShardDecision.HexMeans | examples/cluster-shard-router/router.go:248-251 | a hash is written as the high and low half of each byte, in order |
| ShardDecision.DecideSucceedsIff | examples/cluster-shard-router/router.go:138-150 | on a resolved snapshot a decision is made exactly when there are shards, with a non-empty tag and a route of the snapshot |
| ShardDecision.StampedHeaders | examples/cluster-shard-router/upstream_filter.go:9-22 | which headers a stamped request carries, the others unchanged |
| ShardDecision.StampIsStableIff | examples/cluster-shard-router/upstream_filter.go:9-22 | deciding again on the stamped headers gives the same tag and route for every pair of orders exactly when the longest claimants of the tag are one route |
| ShardDecision.UnsharedStampIsStable | examples/cluster-shard-router/upstream_filter.go:9-22 | with no shared prefix stamping is stable for all headers |
| ShardDecision.ShardStore.Decide | examples/cluster-shard-router/router.go:138-150 | the decision over the published snapshot, for whatever map order |

## Left out

- The C ABI, unsafe buffers and malloc: the Envoy handle is an environment with stated contracts (fresh host pointers, set/add/remove on the header map, owed deliveries).
- The response phase (OnResponseHeaders, OnResponseBody) and the response handler called from OnStreamComplete: the same queues without the handoff.
- Writers that apply mutations directly instead of queueing them, and `Writer.Do`: forwarding calls.
- Panics: a Writer call that would panic is outside a legal script rather than a modelled outcome.
- Data races on the queues between a goroutine and the worker thread: a goroutine's mutations are one step, when its function returns.
- Payloads of metadata, metrics and callout responses are kept as plain strings, numbers and bytes; attributes, logging and spans are not modelled.
- Filter: the fields written by Writer methods are one record field, so that frames name it once; request ids, content type and the stream-object bag are not modelled.
- gRPC status and message text from headers and trailers: they rest on URL decoding; the once flag and the frame codec are modelled.
- Filter state: one batch, sequence or gRPC callback object is kept per stream; a body handler that starts another one while the first is outstanding replaces it in the model, where Envoy would still call both, and a single callout's completion does not say which call it answers.
- HandoffRuns.HandoffTheorem: handlers that call Go are covered by HandoffGo.GoHandoffTheorem; it requires a filter without a body handler, since with one a later body frame is not held; BodyHandlerReleasesPausedRequest says exactly when.
- HandoffCas.DisciplinedHandoffFlushes: requires that no pause falls between the completion's two swaps; without it the claim is false, and FlushedUnlessSplit gives the exact condition.
- Headers.HeaderPhaseStripsFraming: only handlers that neither reject nor wait; the flush of a waiting handler is covered by FlushStripsFraming.
- Promise.StreamPromise.Resolve: the object runs its callbacks as log entries; re-entrant registration and concurrent cancels are covered by the step model of EveryRun.
- Selection: SetCompleteFn and SetCancelFn are made before the completion is handed out and are not separate steps.
- RefreshLoops: tick intervals, jitter, contexts and the observer events of failed fetches.
- HostSetObject.HostSet.Apply: a health update is a call without effect on which pointers are live.
- Rings.Ring.TakeBytes: returns a copy, so the sharing of the returned slice with the ring's array is not captured; the same holds for HeadTail.Head and HeadTail.Tail.
- Rings.Ring.Write: a ring of size 0 takes only empty writes, since the source loops forever on any other.
- MemStores.MemStore.Insert: records are values, so the store's pointers shared with callers are not captured.
- Unicode: header names and routing tokens fold and trim ASCII only.
- ShardDecision.ResolveConfigSnapshot: DNS is a lookup function that does not change during one resolution; SHA-256 is any function to 32 bytes.
- Stream-object bags, the finalized-entry registry, Router, Chain, name registries, JSON and YAML parsing, compression, sidecar and admin servers, proxies, the Postgres store, the UI and all commands: plumbing or easy members.
