/**
 Whole-run properties of the callout handoff under the worker-thread discipline: callbacks run one at a
 time, and a completion either runs inside the call that started it or after the request callback returned.
 */
module Handoff {
  import opened Common
  import opened FilterSpec
  import AllSettled
  import CalloutSequences

  // ---------------------------------------------------------------------------------------------
  // What queueing means

  function HeadersOf(ms: seq<Mutation>): seq<HeaderMutation> {
    if ms == [] then [] else (if ms[0].OfHeader? then [ms[0].header] else []) + HeadersOf(ms[1..])
  }
  function StatesOf(ms: seq<Mutation>): seq<StateMutation> {
    if ms == [] then [] else (if ms[0].OfState? then [ms[0].state] else []) + StatesOf(ms[1..])
  }
  function CountersOf(ms: seq<Mutation>): seq<CounterMutation> {
    if ms == [] then [] else (if ms[0].OfCounter? then [ms[0].counter] else []) + CountersOf(ms[1..])
  }
  function GaugesOf(ms: seq<Mutation>): seq<GaugeMutation> {
    if ms == [] then [] else (if ms[0].OfGauge? then [ms[0].gauge] else []) + GaugesOf(ms[1..])
  }
  function HistogramsOf(ms: seq<Mutation>): seq<HistogramMutation> {
    if ms == [] then [] else (if ms[0].OfHistogram? then [ms[0].histogram] else []) + HistogramsOf(ms[1..])
  }
  function MetadataOf(ms: seq<Mutation>): seq<MetadataMutation> {
    if ms == [] then [] else (if ms[0].OfMetadata? then [ms[0].metadata] else []) + MetadataOf(ms[1..])
  }

  /** The last override wins, the first local response wins, the last body wins. */
  function LastOverride(o: Option<HostOverride>, ms: seq<Mutation>): Option<HostOverride>
    decreases |ms|
  {
    if ms == [] then o else LastOverride(if ms[0].OfOverride? then Some(ms[0].override) else o, ms[1..])
  }
  function FirstReply(ms: seq<Mutation>): Option<LocalResponse> {
    if ms == [] then None else if ms[0].OfReply? then Some(ms[0].reply) else FirstReply(ms[1..])
  }
  function LastBody(b: Option<Bytes>, ms: seq<Mutation>): Option<Bytes>
    decreases |ms|
  {
    if ms == [] then b else LastBody(if ms[0].OfBody? then Some(ms[0].data) else b, ms[1..])
  }

  /**
   Queueing a list of mutations is, queue by queue, appending the mutations of that kind in order; the local
   response is the first one and the override and body the last.
   */
  lemma QueuesAreProjections(w: Work, mutableBody: bool, ms: seq<Mutation>)
    ensures var v := QueueAll(w, mutableBody, ms);
      && v.queues.headers == w.queues.headers + HeadersOf(ms)
      && v.queues.state == w.queues.state + StatesOf(ms)
      && v.queues.counters == w.queues.counters + CountersOf(ms)
      && v.queues.gauges == w.queues.gauges + GaugesOf(ms)
      && v.queues.histograms == w.queues.histograms + HistogramsOf(ms)
      && v.queues.metadata == w.queues.metadata + MetadataOf(ms)
      && v.queues.override == LastOverride(w.queues.override, ms)
      && v.localReply == (if w.localReply.Some? then w.localReply else FirstReply(ms))
      && v.stopped == (w.stopped || FirstReply(ms).Some?)
      && v.replacement == (if mutableBody then LastBody(w.replacement, ms) else w.replacement)
  {
    RequestQueues(w, mutableBody, ms);
    MetricQueues(w, mutableBody, ms);
    SingleSlots(w, mutableBody, ms);
  }

  /** Appending one element and then the rest is appending all of them. */
  lemma Regroup<T>(start: seq<T>, next: seq<T>, rest: seq<T>, all: seq<T>)
    requires
      || (next == start && all == [] + rest)
      || (next != [] && next == start + [next[|next| - 1]] && all == [next[|next| - 1]] + rest)
    ensures next + rest == start + all
  {
  }

  lemma {:induction false} RequestQueues(w: Work, mutableBody: bool, ms: seq<Mutation>)
    ensures var v := QueueAll(w, mutableBody, ms);
      && v.queues.headers == w.queues.headers + HeadersOf(ms)
      && v.queues.state == w.queues.state + StatesOf(ms)
      && v.queues.metadata == w.queues.metadata + MetadataOf(ms)
    decreases |ms|
  {
    if ms != [] {
      var v, rest := QueueOne(w, mutableBody, ms[0]), ms[1..];
      RequestQueues(v, mutableBody, rest);
      Regroup(w.queues.headers, v.queues.headers, HeadersOf(rest), HeadersOf(ms));
      Regroup(w.queues.state, v.queues.state, StatesOf(rest), StatesOf(ms));
      Regroup(w.queues.metadata, v.queues.metadata, MetadataOf(rest), MetadataOf(ms));
    }
  }

  lemma {:induction false} MetricQueues(w: Work, mutableBody: bool, ms: seq<Mutation>)
    ensures var v := QueueAll(w, mutableBody, ms);
      && v.queues.counters == w.queues.counters + CountersOf(ms)
      && v.queues.gauges == w.queues.gauges + GaugesOf(ms)
      && v.queues.histograms == w.queues.histograms + HistogramsOf(ms)
    decreases |ms|
  {
    if ms != [] {
      var v, rest := QueueOne(w, mutableBody, ms[0]), ms[1..];
      MetricQueues(v, mutableBody, rest);
      Regroup(w.queues.counters, v.queues.counters, CountersOf(rest), CountersOf(ms));
      Regroup(w.queues.gauges, v.queues.gauges, GaugesOf(rest), GaugesOf(ms));
      Regroup(w.queues.histograms, v.queues.histograms, HistogramsOf(rest), HistogramsOf(ms));
    }
  }

  lemma {:induction false} SingleSlots(w: Work, mutableBody: bool, ms: seq<Mutation>)
    ensures var v := QueueAll(w, mutableBody, ms);
      && v.queues.override == LastOverride(w.queues.override, ms)
      && v.localReply == (if w.localReply.Some? then w.localReply else FirstReply(ms))
      && v.stopped == (w.stopped || FirstReply(ms).Some?)
      && v.replacement == (if mutableBody then LastBody(w.replacement, ms) else w.replacement)
    decreases |ms|
  {
    if ms != [] {
      SingleSlots(QueueOne(w, mutableBody, ms[0]), mutableBody, ms[1..]);
    }
  }

  lemma {:induction false} QueueAllConcat(w: Work, mutableBody: bool, ms: seq<Mutation>, ns: seq<Mutation>)
    ensures QueueAll(w, mutableBody, ms + ns) == QueueAll(QueueAll(w, mutableBody, ms), mutableBody, ns)
    decreases |ms|
  {
    if ms == [] {
      assert ms + ns == ns;
    } else {
      assert (ms + ns)[1..] == ms[1..] + ns;
      QueueAllConcat(QueueOne(w, mutableBody, ms[0]), mutableBody, ms[1..], ns);
    }
  }

  /** A list of mutations sorted by kind, each kind in order. */
  function Sorted(ms: seq<Mutation>): Queues {
    Queues(HeadersOf(ms), StatesOf(ms), CountersOf(ms), GaugesOf(ms), HistogramsOf(ms), MetadataOf(ms),
           LastOverride(None, ms))
  }

  /** The handle calls a list of mutations amounts to when it is flushed. */
  ghost function Applied(f: Filter, ms: seq<Mutation>): seq<Effect> {
    QueueEffects(Sorted(ms), f.strip) + BodyEffects(f, LastBody(None, ms))
  }

  function BodyEffects(f: Filter, body: Option<Bytes>): seq<Effect> {
    if f.cfg.mutableBody && body.Some? && f.buffered.Some?
    then [BufferReplaced(body.value), HeaderSet(CONTENT_LENGTH, Itoa(|body.value|))] else []
  }

  lemma QueuedOutcome(f: Filter, ms: seq<Mutation>)
    requires f.work == NO_WORK
    ensures var g := EnqueueAll(f, ms);
      && g.work.localReply == FirstReply(ms)
      && QueueEffects(g.work.queues, g.strip) + ReplacementEffects(g) == Applied(f, ms)
  {
    QueuesAreProjections(NO_WORK, f.cfg.mutableBody, ms);
    assert EnqueueAll(f, ms).work.queues == Sorted(ms);
  }

  lemma NoQueuesNoEffects()
    ensures QueueEffects(NO_QUEUES, false) == []
  {
  }

  /**
   Mutations queued on a filter with empty queues: flush applies each of them exactly once, in order within its
   kind, and flushing again does nothing; or, when one of them is a local response, it sends the first response
   alone.
   */
  lemma FlushAppliesEachOnce(f: Filter, ms: seq<Mutation>, continueReq: bool)
    requires f.work == NO_WORK
    ensures var g := Flush(EnqueueAll(f, ms), continueReq);
      match FirstReply(ms)
      case None =>
        && g.trace == f.trace + (Applied(f, ms) + if continueReq then [RequestContinued] else [])
        && Flush(g, false) == g
      case Some(r) => g.trace == f.trace + [ResponseSent(r)]
  {
    QueuedOutcome(f, ms);
    NoQueuesNoEffects();
    var g := Flush(EnqueueAll(f, ms), continueReq);
    if FirstReply(ms).None? {
      assert Outcome(g, false) == [];
      assert g.trace + [] == g.trace;
    }
  }

  /** Nothing is queued for a flush to apply, apart from a body. */
  predicate NothingQueued(o: Option<HostOverride>, ms: seq<Mutation>) {
    && HeadersOf(ms) == [] && StatesOf(ms) == [] && CountersOf(ms) == [] && GaugesOf(ms) == []
    && HistogramsOf(ms) == [] && MetadataOf(ms) == [] && LastOverride(o, ms) == None
  }

  lemma NothingQueuedStep(o: Option<HostOverride>, ms: seq<Mutation>)
    requires ms != []
    ensures var m := ms[0];
      NothingQueued(o, ms) <==>
        (m.OfReply? || m.OfBody? || m.OfOverride?)
          && NothingQueued(if m.OfOverride? then Some(m.override) else o, ms[1..])
  {
  }

  lemma {:induction false} NothingQueuedIff(o: Option<HostOverride>, ms: seq<Mutation>)
    ensures NothingQueued(o, ms) <==> o == None && forall i | 0 <= i < |ms| :: ms[i].OfReply? || ms[i].OfBody?
    decreases |ms|
  {
    if ms != [] {
      NothingQueuedStep(o, ms);
      NothingQueuedIff(if ms[0].OfOverride? then Some(ms[0].override) else o, ms[1..]);
      assert forall i | 1 <= i < |ms| :: ms[i] == ms[1..][i - 1];
    }
  }

  lemma {:induction false} NoBodyIff(b: Option<Bytes>, ms: seq<Mutation>)
    ensures LastBody(b, ms).None? <==> b.None? && forall i | 0 <= i < |ms| :: !ms[i].OfBody?
    decreases |ms|
  {
    if ms != [] {
      NoBodyIff(if ms[0].OfBody? then Some(ms[0].data) else b, ms[1..]);
      assert forall i | 1 <= i < |ms| :: ms[i] == ms[1..][i - 1];
    }
  }

  lemma NoEffectsIff(f: Filter, ms: seq<Mutation>)
    ensures Applied(f, ms) == [] <==>
      !f.strip && forall m | m in ms :: m.OfReply? || (m.OfBody? && !(f.cfg.mutableBody && f.buffered.Some?))
  {
    NothingQueuedIff(None, ms);
    NoBodyIff(None, ms);
    QueueEffectsLength(Sorted(ms), f.strip);
    assert |Applied(f, ms)| == |QueueEffects(Sorted(ms), f.strip)| + |BodyEffects(f, LastBody(None, ms))|;
    assert NothingQueued(None, ms) && !f.strip <==> QueueEffects(Sorted(ms), f.strip) == [];
  }

  lemma QueueEffectsLength(q: Queues, strip: bool)
    ensures |QueueEffects(q, strip)| == |q.headers| + (if strip then 2 else 0) + |q.state| + |q.counters|
      + |q.gauges| + |q.histograms| + |q.metadata| + if q.override.Some? then 1 else 0
  {
  }

  /**
   A flush that sends a local response leaves the queues as they were, so a second flush would apply them. It is
   without effect exactly when nothing was rejected, or nothing but responses was queued that a flush would apply.
   */
  lemma SecondFlushIsEmptyIff(f: Filter, ms: seq<Mutation>)
    requires f.work == NO_WORK
    ensures var g := Flush(EnqueueAll(f, ms), false);
      Flush(g, false).trace == g.trace <==>
        || FirstReply(ms).None?
        || (!f.strip && forall m | m in ms :: m.OfReply? || (m.OfBody? && !(f.cfg.mutableBody && f.buffered.Some?)))
  {
    FlushAppliesEachOnce(f, ms, false);
    QueuedOutcome(f, ms);
    NoEffectsIff(f, ms);
    var g := Flush(EnqueueAll(f, ms), false);
    if FirstReply(ms).Some? {
      assert Outcome(g, false) == Applied(f, ms) + [];
      assert Flush(g, false).trace == g.trace + Applied(f, ms);
    }
  }

  // ---------------------------------------------------------------------------------------------
  // Runs of one stream

  datatype Event =
    | Body(frame: Bytes, endOfStream: bool, script: seq<Action>)
    | Trailers
    | Delivered(d: Delivery, callback: seq<Mutation>)
    | GoDone(ms: seq<Mutation>)
    | GoFinishes
    | StreamCompletes

  /** Envoy makes no stream callback after OnStreamComplete; completions and goroutines may still come. */
  predicate Legal(s: Stream, e: Event) {
    match e
    case Body(_, _, script) => !s.f.streamDone && LegalScript(NEW_WRITER, script)
    case Trailers => !s.f.streamDone
    case Delivered(d, _) => LegalDelivery(s, d)
    case GoDone(_) => s.running > 0
    case GoFinishes => s.scheduled > 0
    case StreamCompletes => !s.f.streamDone
  }

  function Step(s: Stream, e: Event): Stream
    requires Legal(s, e)
  {
    match e
    case Body(frame, endOfStream, script) => OnRequestBody(s, frame, endOfStream, script).0
    case Trailers => s
    case Delivered(d, callback) => Deliver(s, d, callback)
    case GoDone(ms) => GoReturns(s, ms)
    case GoFinishes => GoFinish(s)
    case StreamCompletes => OnStreamComplete(s)
  }

  /** What a request callback returns to Envoy; None for the other events. */
  function Returned(s: Stream, e: Event): Option<Status>
    requires Legal(s, e)
  {
    match e
    case Body(frame, endOfStream, script) => Some(OnRequestBody(s, frame, endOfStream, script).1)
    case Trailers => Some(OnRequestTrailers(s))
    case _ => None
  }

  ghost predicate LegalRun(s: Stream, es: seq<Event>)
    decreases |es|
  {
    es == [] || (Legal(s, es[0]) && LegalRun(Step(s, es[0]), es[1..]))
  }

  ghost function Run(s: Stream, es: seq<Event>): Stream
    requires LegalRun(s, es)
    decreases |es|
  {
    if es == [] then s else Run(Step(s, es[0]), es[1..])
  }

  ghost function Statuses(s: Stream, es: seq<Event>): (r: seq<Option<Status>>)
    requires LegalRun(s, es)
    ensures |r| == |es|
    decreases |es|
  {
    if es == [] then [] else [Returned(s, es[0])] + Statuses(Step(s, es[0]), es[1..])
  }

  // ---------------------------------------------------------------------------------------------
  // The callback object

  predicate OpArmed(op: Op) {
    match op
    case NoOp => false
    case Batch(b) => !b.flushed
    case Sequence(q) => !q.finished
    case Grpc(once) => !once
  }

  /** A user callback is still to run. */
  predicate Armed(s: Stream) {
    s.f.calloutFn || OpArmed(s.op)
  }

  /** Envoy still owes a delivery that can lead to the user's callback. */
  ghost predicate Owed(s: Stream) {
    || s.f.calloutFn
    || (s.op.Batch? && exists i | 0 <= i < |s.op.batch.responses| :: s.op.batch.responses[i].None?)
    || (s.op.Sequence? && s.op.sequence.inFlight > 0)
    || s.op == Grpc(false)
  }

  /** The callback object's bookkeeping is right and at most one callback is outstanding. */
  ghost predicate Sound(s: Stream) {
    && !(s.f.calloutFn && OpArmed(s.op))
    && (s.op.Batch? ==> AllSettled.Valid(s.op.batch))
    && (s.op.Sequence? ==> CalloutSequences.Quiet(s.op.sequence, !s.f.streamDone))
  }

  /** An outstanding callback on a live stream always has a delivery to wait for: nothing is forgotten. */
  lemma ArmedIsOwed(s: Stream)
    requires Sound(s) && Armed(s) && !s.f.streamDone
    ensures Owed(s)
  {
    if s.op.Batch? { AllSettled.CountNoneZero(s.op.batch.responses); }
  }

  predicate Fires(s: Stream, e: Event) {
    e.Delivered? && !s.f.streamDone && LegalDelivery(s, e.d) && Advance(s, e.d).1
  }

  /** Bookkeeping of a delivery: it fires exactly when it disarms, and keeps the callback object sound. */
  lemma AdvanceSound(s: Stream, d: Delivery)
    requires Sound(s) && LegalDelivery(s, d)
    ensures var (op, fires) := Advance(s, d);
      var s' := s.(op := op, f := s.f.(calloutFn := if fires && d.HttpDone? then false else s.f.calloutFn));
      && Sound(s')
      && (fires ==> Armed(s) && !Armed(s'))
      && (!fires ==> (Armed(s') <==> Armed(s)))
  {
    match d
    case SlotDone(i, r) =>
      AllSettled.SettleKeepsValid(s.op.batch, i, r);
    case SequenceAnswer(r, ds) =>
      var q := s.op.sequence;
      CalloutSequences.StepSettles(q.(responses := q.responses + [r], inFlight := q.inFlight - 1), Some(r), ds,
        !s.f.streamDone);
    case _ =>
  }

  // ---------------------------------------------------------------------------------------------
  // The handler

  /** Every mutation queued while a handler runs, including by callbacks that Envoy runs inside it. */
  function ScriptMutations(w: Writer, script: seq<Action>): seq<Mutation>
    requires LegalScript(w, script)
    decreases |script|
  {
    if script == [] then []
    else
      match script[0]
      case Mutate(m) => [m] + ScriptMutations(w, script[1..])
      case GoAsync => ScriptMutations(w.(goStarted := true), script[1..])
      case Callout(st, callback) =>
        (if FiresAtOnce(st) then callback else []) + ScriptMutations(w.(calloutStarted := Accepted(st)), script[1..])
  }

  /** Starting a callout queues what a callback run inside the call queues, and makes no call on the handle. */
  lemma StartOnlyQueues(s: Stream, st: Start, callback: seq<Mutation>)
    requires st.SequenceStart? ==> CalloutSequences.Settles(st.decisions)
    ensures var s' := StartCallout(s, st, callback);
      && s'.f == EnqueueAll(s.f, if FiresAtOnce(st) then callback else []).(
                   calloutState := s'.f.calloutState, calloutFn := s'.f.calloutFn)
      && s'.running == s.running && s'.scheduled == s.scheduled
      && (Accepted(st) ==> s'.f.calloutState == if FiresAtOnce(st) then Done else Active)
      && s'.f.calloutFn == (if st.HttpStart? then st.accepted && !st.sync else s.f.calloutFn)
  {
  }

  /** g is f with some mutations queued; only the callout and goroutine flags may differ besides. */
  ghost predicate OnlyQueued(f: Filter, ms: seq<Mutation>, g: Filter) {
    g == EnqueueAll(f, ms).(calloutState := g.calloutState, calloutFn := g.calloutFn,
                            goStarted := g.goStarted, goCompleted := g.goCompleted)
  }

  lemma OnlyQueuedConcat(f: Filter, ms: seq<Mutation>, g: Filter, ns: seq<Mutation>, h: Filter)
    requires OnlyQueued(f, ms, g) && OnlyQueued(g, ns, h)
    ensures OnlyQueued(f, ms + ns, h)
  {
    QueueAllConcat(f.work, f.cfg.mutableBody, ms, ns);
  }

  /** Whatever state a handler starts in, it only queues: its mutations in order, and nothing on the handle. */
  lemma {:induction false} ScriptQueues(s: Stream, w: Writer, script: seq<Action>)
    requires LegalScript(w, script)
    ensures OnlyQueued(s.f, ScriptMutations(w, script), RunScript(s, w, script).0.f)
    decreases |script|
  {
    if script != [] {
      match script[0]
      case Mutate(m) =>
        var s1 := s.(f := EnqueueAll(s.f, [m]));
        ScriptQueues(s1, w, script[1..]);
        OnlyQueuedConcat(s.f, [m], s1.f, ScriptMutations(w, script[1..]), RunScript(s1, w, script[1..]).0.f);
      case GoAsync =>
        var s1, w1 := StartGo(s), w.(goStarted := true);
        ScriptQueues(s1, w1, script[1..]);
        OnlyQueuedConcat(s.f, [], s1.f, ScriptMutations(w1, script[1..]), RunScript(s1, w1, script[1..]).0.f);
        assert [] + ScriptMutations(w1, script[1..]) == ScriptMutations(w1, script[1..]);
      case Callout(st, callback) =>
        StartOnlyQueues(s, st, callback);
        var s1, w1 := StartCallout(s, st, callback), w.(calloutStarted := Accepted(st));
        ScriptQueues(s1, w1, script[1..]);
        OnlyQueuedConcat(s.f, if FiresAtOnce(st) then callback else [], s1.f,
                         ScriptMutations(w1, script[1..]), RunScript(s1, w1, script[1..]).0.f);
    }
  }

  /** Between Writer calls: an accepted callout is either armed and Active, or has run its callback and is Done. */
  ghost predicate Handling(s: Stream, w: Writer) {
    && Sound(s) && !s.f.streamDone
    && (w.calloutStarted ==> s.f.calloutState == (if Armed(s) then Active else Done))
    && (!w.calloutStarted ==> !Armed(s) && s.f.calloutState != Paused)
    && (w.goStarted <==> s.f.goStarted) && !(w.goStarted && w.calloutStarted)
    && s.running == (if w.goStarted then 1 else 0) && s.scheduled == 0
  }

  lemma StartHandling(s: Stream, w: Writer, st: Start, callback: seq<Mutation>)
    requires Handling(s, w) && !w.calloutStarted && !w.goStarted
    requires st.SequenceStart? ==> CalloutSequences.Settles(st.decisions)
    ensures var s' := StartCallout(s, st, callback);
      && Handling(s', w.(calloutStarted := Accepted(st)))
      && s'.f == EnqueueAll(s.f, if FiresAtOnce(st) then callback else []).(
                   calloutState := s'.f.calloutState, calloutFn := s'.f.calloutFn)
      && (Accepted(st) ==> (Armed(s') <==> !FiresAtOnce(st)))
  {
    match st
    case BatchStart(slots) =>
      if slots != [] {
        AllSettled.CountNoneFresh(|slots|);
        AllSettled.LaunchFacts(AllSettled.Unsettled(|slots|), slots, 0);
      }
    case SequenceStart(ds) =>
      CalloutSequences.StepSettles(CalloutSequences.FRESH, None, ds, true);
    case _ =>
  }

  lemma {:induction false} ScriptHandling(s: Stream, w: Writer, script: seq<Action>)
    requires Handling(s, w) && LegalScript(w, script)
    ensures Handling(RunScript(s, w, script).0, RunScript(s, w, script).1)
    decreases |script|
  {
    if script != [] {
      match script[0]
      case Mutate(m) => ScriptHandling(s.(f := EnqueueAll(s.f, [m])), w, script[1..]);
      case GoAsync => ScriptHandling(StartGo(s), w.(goStarted := true), script[1..]);
      case Callout(st, callback) =>
        StartHandling(s, w, st, callback);
        ScriptHandling(StartCallout(s, st, callback), w.(calloutStarted := Accepted(st)), script[1..]);
    }
  }

  /** A handler only queues: the handle is not touched, and the queues hold its mutations in order. */
  lemma ScriptOnlyQueues(s: Stream, w: Writer, script: seq<Action>)
    requires Handling(s, w) && LegalScript(w, script)
    ensures Handling(RunScript(s, w, script).0, RunScript(s, w, script).1)
    ensures OnlyQueued(s.f, ScriptMutations(w, script), RunScript(s, w, script).0.f)
  {
    ScriptHandling(s, w, script);
    ScriptQueues(s, w, script);
  }
}
