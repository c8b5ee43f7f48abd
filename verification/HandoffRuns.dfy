/** Theorems about every run of one stream: what reaches Envoy, and what each request callback returns. */
module HandoffRuns {
  import opened Common
  import opened FilterSpec
  import opened Handoff

  // ---------------------------------------------------------------------------------------------
  // A paused callout

  predicate NoGoroutine(s: Stream) {
    !s.f.goStarted && s.running == 0 && s.scheduled == 0
  }

  /** A callout is paused and its callback is still to run. */
  ghost predicate Waiting(s: Stream) {
    && !s.f.streamDone && NoGoroutine(s)
    && Sound(s) && Armed(s) && s.f.calloutState == Paused
    && (s.f.work.stopped <==> s.f.work.localReply.Some?)
  }

  /** Nothing is outstanding any more. */
  ghost predicate Settled(s: Stream) {
    && NoGoroutine(s)
    && Sound(s) && !Armed(s) && s.f.calloutState != Paused
  }

  /** No request handler runs later: the filter has no body handler, or the request has already ended. */
  ghost predicate NoLaterHandler(s: Stream, es: seq<Event>) {
    s.f.cfg.hasBodyHandler ==> forall e | e in es :: !e.Body?
  }

  /** The first delivery that runs the user's callback on a live stream, and Envoy's buffer at that time. */
  datatype Firing = Firing(index: nat, buffered: Option<Bytes>, callback: seq<Mutation>)

  ghost function FirstFiring(s: Stream, es: seq<Event>): Option<Firing>
    requires LegalRun(s, es)
    decreases |es|
  {
    if es == [] then None
    else if Fires(s, es[0]) then Some(Firing(0, s.f.buffered, es[0].callback))
    else
      match FirstFiring(Step(s, es[0]), es[1..])
      case None => None
      case Some(x) => Some(x.(index := x.index + 1))
  }

  lemma WaitingStep(s: Stream, e: Event)
    requires Waiting(s) && Legal(s, e) && !Fires(s, e) && NoLaterHandler(s, [e])
    ensures var s' := Step(s, e);
      && s'.f == s.f.(buffered := s'.f.buffered, streamDone := s'.f.streamDone)
      && (s'.f.streamDone <==> e.StreamCompletes?)
      && (!s'.f.streamDone ==> Waiting(s'))
      && Returned(s, e) != Some(Continue)
  {
    assert e in [e];
    if e.Delivered? { AdvanceSound(s, e.d); }
  }

  lemma FiringStep(s: Stream, e: Event)
    requires Waiting(s) && Legal(s, e) && Fires(s, e)
    ensures var s' := Step(s, e);
      var q := EnqueueAll(s.f, e.callback);
      && Settled(s') && !s'.f.streamDone
      && s'.f.trace == s.f.trace + Outcome(q, true)
      && (s'.f.work.stopped <==> q.work.localReply.Some?)
  {
    AdvanceSound(s, e.d);
    SingleSlots(s.f.work, s.f.cfg.mutableBody, e.callback);
  }

  lemma SettledStep(s: Stream, e: Event)
    requires Settled(s) && Legal(s, e) && NoLaterHandler(s, [e])
    ensures var s' := Step(s, e);
      && Settled(s') && s'.f.trace == s.f.trace && s'.f.work == s.f.work && s'.f.cfg == s.f.cfg
      && (Returned(s, e).Some? ==> Returned(s, e) == Some(if s.f.work.stopped then Stop else Continue))
  {
    assert e in [e];
    if e.Delivered? { AdvanceSound(s, e.d); }
  }

  /** After the handoff is over, no event makes another call on the handle or changes the verdict. */
  lemma {:induction false} SettledRun(s: Stream, es: seq<Event>)
    requires Settled(s) && LegalRun(s, es) && NoLaterHandler(s, es)
    ensures Run(s, es).f.trace == s.f.trace
    ensures forall i | 0 <= i < |es| && Statuses(s, es)[i].Some? ::
      Statuses(s, es)[i] == Some(if s.f.work.stopped then Stop else Continue)
    decreases |es|
  {
    if es != [] {
      SettledStep(s, es[0]);
      SettledRun(Step(s, es[0]), es[1..]);
    }
  }

  // ---------------------------------------------------------------------------------------------
  // A finished stream

  /** Once the stream is complete, every goroutine that could still finish has lost the arbitration. */
  predicate Arbitrated(s: Stream) {
    && (!s.f.goCompleted ==> s.f.goStarted || s.running + s.scheduled == 0)
    && (s.f.streamDone ==> s.f.goCompleted || s.running + s.scheduled == 0)
  }

  lemma DeadStep(s: Stream, e: Event)
    requires s.f.streamDone && Arbitrated(s) && Legal(s, e)
    ensures var s' := Step(s, e);
      s'.f.streamDone && Arbitrated(s') && s'.f.trace == s.f.trace && Returned(s, e) == None
  {
  }

  /**
   After OnStreamComplete no callout, batch, sequence, gRPC or goroutine path makes any call on the handle:
   neither a flush nor ContinueRequest. Holds with and without a body handler.
   */
  lemma {:induction false} DeadStreamIsSilent(s: Stream, es: seq<Event>)
    requires s.f.streamDone && Arbitrated(s) && LegalRun(s, es)
    ensures Run(s, es).f.trace == s.f.trace
    ensures forall i | 0 <= i < |es| :: Statuses(s, es)[i] == None
    decreases |es|
  {
    if es != [] {
      DeadStep(s, es[0]);
      DeadStreamIsSilent(Step(s, es[0]), es[1..]);
    }
  }

  // ---------------------------------------------------------------------------------------------
  // The handoff theorem

  /** The filter that the firing delivery flushes. */
  ghost function FiredFilter(f: Filter, x: Firing): Filter {
    EnqueueAll(f.(buffered := x.buffered), x.callback)
  }

  ghost predicate NeverReleased(s: Stream, es: seq<Event>, upTo: nat)
    requires LegalRun(s, es)
  {
    forall i | 0 <= i < upTo && i < |es| :: Statuses(s, es)[i] != Some(Continue)
  }

  /** From position lo on, request callbacks return this status. */
  ghost predicate AllReturn(s: Stream, es: seq<Event>, lo: nat, status: Status)
    requires LegalRun(s, es)
  {
    forall i | lo <= i < |es| && Statuses(s, es)[i].Some? :: Statuses(s, es)[i] == Some(status)
  }

  ghost predicate WaitsForever(s: Stream, es: seq<Event>)
    requires LegalRun(s, es)
  {
    && Run(s, es).f.trace == s.f.trace
    && (Run(s, es).f.streamDone || Owed(Run(s, es)))
    && NeverReleased(s, es, |es|)
  }

  ghost predicate FlushesOnceAt(s: Stream, es: seq<Event>, f: Filter, x: Firing)
    requires LegalRun(s, es)
  {
    var q := FiredFilter(f, x);
    && x.index < |es|
    && Run(s, es).f.trace == s.f.trace + Outcome(q, true)
    && NeverReleased(s, es, x.index + 1)
    && AllReturn(s, es, x.index + 1, if q.work.localReply.Some? then Stop else Continue)
  }

  lemma StatusesShift(s: Stream, es: seq<Event>)
    requires LegalRun(s, es) && es != []
    ensures Statuses(s, es)[0] == Returned(s, es[0])
    ensures forall i | 1 <= i < |es| :: Statuses(s, es)[i] == Statuses(Step(s, es[0]), es[1..])[i - 1]
    ensures Run(s, es) == Run(Step(s, es[0]), es[1..])
  {
    var later := Statuses(Step(s, es[0]), es[1..]);
    assert Statuses(s, es) == [Returned(s, es[0])] + later;
    forall i | 1 <= i < |es| ensures Statuses(s, es)[i] == later[i - 1] {
      assert ([Returned(s, es[0])] + later)[i] == later[i - 1];
    }
  }

  lemma PausedFires(s: Stream, es: seq<Event>)
    requires Waiting(s) && LegalRun(s, es) && NoLaterHandler(s, es) && es != [] && Fires(s, es[0])
    ensures FlushesOnceAt(s, es, s.f, Firing(0, s.f.buffered, es[0].callback))
  {
    StatusesShift(s, es);
    FiringStep(s, es[0]);
    SettledRun(Step(s, es[0]), es[1..]);
    assert s.f.(buffered := s.f.buffered) == s.f;
  }

  lemma PausedDies(s: Stream, es: seq<Event>)
    requires Waiting(s) && LegalRun(s, es) && NoLaterHandler(s, es) && es != [] && !Fires(s, es[0])
      && Step(s, es[0]).f.streamDone
    ensures WaitsForever(s, es) && FirstFiring(s, es) == None
  {
    StatusesShift(s, es);
    WaitingStep(s, es[0]);
    DeadStreamIsSilent(Step(s, es[0]), es[1..]);
    DeadNeverFires(Step(s, es[0]), es[1..]);
    DeadStaysDead(Step(s, es[0]), es[1..]);
  }

  /** A paused callout is flushed once, at its firing delivery, or waits with everything held. */
  lemma {:induction false} PausedRun(s: Stream, es: seq<Event>)
    requires Waiting(s) && LegalRun(s, es) && NoLaterHandler(s, es)
    ensures FirstFiring(s, es).None? ==> WaitsForever(s, es)
    ensures FirstFiring(s, es).Some? ==> FlushesOnceAt(s, es, s.f, FirstFiring(s, es).value)
    decreases |es|
  {
    if es == [] {
      ArmedIsOwed(s);
    } else if Fires(s, es[0]) {
      PausedFires(s, es);
    } else if Step(s, es[0]).f.streamDone {
      PausedDies(s, es);
    } else {
      WaitingStep(s, es[0]);
      PausedRun(Step(s, es[0]), es[1..]);
      PausedWaits(s, es);
    }
  }

  /** One more event at the front of a run in which the callout stays paused. */
  lemma PausedWaits(s: Stream, es: seq<Event>)
    requires LegalRun(s, es) && es != [] && !Fires(s, es[0]) && Returned(s, es[0]) != Some(Continue)
    requires var s' := Step(s, es[0]);
      && s'.f == s.f.(buffered := s'.f.buffered, streamDone := s'.f.streamDone)
      && (FirstFiring(s', es[1..]).None? ==> WaitsForever(s', es[1..]))
      && (FirstFiring(s', es[1..]).Some? ==> FlushesOnceAt(s', es[1..], s'.f, FirstFiring(s', es[1..]).value))
    ensures FirstFiring(s, es).None? ==> WaitsForever(s, es)
    ensures FirstFiring(s, es).Some? ==> FlushesOnceAt(s, es, s.f, FirstFiring(s, es).value)
  {
    StatusesShift(s, es);
    var s' := Step(s, es[0]);
    if FirstFiring(s', es[1..]).Some? {
      var x := FirstFiring(s', es[1..]).value;
      SameFired(s.f, s'.f, x.(index := x.index + 1), x);
    }
  }

  lemma SameFired(f: Filter, g: Filter, x: Firing, y: Firing)
    requires f.work == g.work && f.strip == g.strip && f.cfg == g.cfg
    requires x.buffered == y.buffered && x.callback == y.callback
    ensures FiredFilter(f, x).work == FiredFilter(g, y).work
    ensures Outcome(FiredFilter(f, x), true) == Outcome(FiredFilter(g, y), true)
  {
  }

  /** Flushed once at the firing delivery, or held for the whole run. */
  ghost predicate PausedHandoff(s: Stream, es: seq<Event>, q: Filter)
    requires LegalRun(s, es)
  {
    match FirstFiring(s, es)
    case None => WaitsForever(s, es)
    case Some(x) => FlushesOnceAt(s, es, q, x)
  }

  lemma PausedFrom(s: Stream, es: seq<Event>, q: Filter)
    requires Waiting(s) && LegalRun(s, es) && NoLaterHandler(s, es)
    requires s.f.work == q.work && s.f.strip == q.strip && s.f.cfg == q.cfg
    ensures PausedHandoff(s, es, q)
  {
    PausedRun(s, es);
    if FirstFiring(s, es).Some? {
      SameFired(s.f, q, FirstFiring(s, es).value, FirstFiring(s, es).value);
    }
  }

  lemma {:induction false} DeadNeverFires(s: Stream, es: seq<Event>)
    requires s.f.streamDone && Arbitrated(s) && LegalRun(s, es)
    ensures FirstFiring(s, es) == None
    decreases |es|
  {
    if es != [] {
      DeadStep(s, es[0]);
      DeadNeverFires(Step(s, es[0]), es[1..]);
    }
  }

  lemma {:induction false} DeadStaysDead(s: Stream, es: seq<Event>)
    requires s.f.streamDone && Arbitrated(s) && LegalRun(s, es)
    ensures Run(s, es).f.streamDone
    decreases |es|
  {
    if es != [] {
      DeadStep(s, es[0]);
      DeadStaysDead(Step(s, es[0]), es[1..]);
    }
  }

  // ---------------------------------------------------------------------------------------------
  // Request callbacks

  lemma {:induction false} ScriptWithoutGo(s: Stream, w: Writer, script: seq<Action>)
    requires LegalScript(w, script) && GoAsync !in script
    ensures RunScript(s, w, script).1.goStarted == w.goStarted
    decreases |script|
  {
    if script != [] {
      match script[0]
      case Mutate(m) => ScriptWithoutGo(s.(f := EnqueueAll(s.f, [m])), w, script[1..]);
      case GoAsync =>
      case Callout(st, callback) =>
        ScriptWithoutGo(StartCallout(s, st, callback), w.(calloutStarted := Accepted(st)), script[1..]);
    }
  }

  /** A handler run from s leaves an accepted callout whose callback has not run. */
  ghost predicate LeavesPending(s: Stream, script: seq<Action>)
    requires LegalScript(NEW_WRITER, script)
  {
    var (s', w) := RunScript(s, NEW_WRITER, script);
    w.calloutStarted && Armed(s')
  }

  /** The filter with every mutation of the handler queued and nothing else done. */
  ghost function Queued(s: Stream, script: seq<Action>): Filter
    requires LegalScript(NEW_WRITER, script)
  {
    EnqueueAll(s.f, ScriptMutations(NEW_WRITER, script))
  }

  /** A stream on which a request callback may start work. */
  ghost predicate Ready(s: Stream) {
    Settled(s) && !s.f.streamDone && !s.f.work.stopped && s.f.work.localReply.None?
  }

  /** What a handler leaves: its mutations queued and nothing sent, and its callout pending or done. */
  lemma AfterScript(s: Stream, script: seq<Action>)
    requires Ready(s) && LegalScript(NEW_WRITER, script) && GoAsync !in script
    ensures var (s', w) := RunScript(s, NEW_WRITER, script);
      var q := Queued(s, script);
      && Handling(s', w) && !w.goStarted
      && s'.f == q.(calloutState := s'.f.calloutState, calloutFn := s'.f.calloutFn,
                    goStarted := s'.f.goStarted, goCompleted := s'.f.goCompleted)
      && (q.work.stopped <==> q.work.localReply.Some?)
  {
    ScriptOnlyQueues(s, NEW_WRITER, script);
    ScriptWithoutGo(s, NEW_WRITER, script);
    SingleSlots(s.f.work, s.f.cfg.mutableBody, ScriptMutations(NEW_WRITER, script));
  }

  /** The pausing end of a request callback. */
  lemma PauseOutcome(s: Stream, w: Writer, buffered: Option<Bytes>)
    requires Handling(s, w) && !w.goStarted && w.calloutStarted && Armed(s)
    requires s.f.work.stopped <==> s.f.work.localReply.Some?
    ensures Pauses(s.f, w)
    ensures Waiting(s.(f := s.f.(calloutState := Paused, buffered := buffered)))
  {
  }

  /** The synchronous end of a request callback: one flush, no ContinueRequest, nothing left outstanding. */
  lemma ConcludeOutcome(s: Stream, w: Writer)
    requires Handling(s, w) && !w.goStarted && !(w.calloutStarted && Armed(s))
    requires s.f.work.stopped <==> s.f.work.localReply.Some?
    ensures !Pauses(s.f, w)
    ensures var f := Conclude(s.f, w);
      && Settled(s.(f := f)) && f.trace == s.f.trace + Outcome(s.f, false)
      && (f.work.stopped <==> s.f.work.localReply.Some?)
  {
  }

  /** How OnRequestHeaders leaves a fresh stream: paused with everything queued, or flushed once. */
  lemma HeadersOutcome(cfg: Config, script: seq<Action>, endOfStream: bool)
    requires !cfg.hasBodyHandler && LegalScript(NEW_WRITER, script) && GoAsync !in script
    ensures var (s, status) := OnRequestHeaders(NewStream(cfg), script, [], endOfStream);
      var q := Queued(NewStream(cfg), script);
      if LeavesPending(NewStream(cfg), script) then
        && Waiting(s) && status == Stop && s.f.trace == []
        && s.f.work == q.work && s.f.strip == q.strip && s.f.cfg == q.cfg
      else
        && Settled(s) && s.f.trace == Outcome(q, false) && s.f.cfg == cfg
        && (s.f.work.stopped <==> q.work.localReply.Some?)
        && status == (if q.work.localReply.Some? then Stop else Continue)
  {
    AfterScript(NewStream(cfg), script);
    var (s, w) := RunScript(NewStream(cfg), NEW_WRITER, script);
    assert MarkStrip(s, endOfStream) == s;
    if w.calloutStarted && Armed(s) {
      PausedEnd(s, w, Queued(NewStream(cfg), script));
    } else {
      ConcludedEnd(s, w, Queued(NewStream(cfg), script));
    }
  }

  /** The end of a headers callback whose handler left its callback pending. */
  lemma PausedEnd(s: Stream, w: Writer, q: Filter)
    requires Handling(s, w) && !w.goStarted && w.calloutStarted && Armed(s)
    requires OnlyFlagsDiffer(s.f, q) && (q.work.stopped <==> q.work.localReply.Some?)
    ensures Pauses(s.f, w)
    ensures var (s', status) := HeadersEnd(s, w);
      && Waiting(s') && status == Stop && s'.f.trace == q.trace
      && s'.f.work == q.work && s'.f.strip == q.strip && s'.f.cfg == q.cfg
  {
    PauseOutcome(s, w, s.f.buffered);
    assert s.f.(calloutState := Paused, buffered := s.f.buffered) == s.f.(calloutState := Paused);
  }

  /** The end of a headers callback whose handler left nothing pending. */
  lemma ConcludedEnd(s: Stream, w: Writer, q: Filter)
    requires Handling(s, w) && !w.goStarted && !(w.calloutStarted && Armed(s))
    requires OnlyFlagsDiffer(s.f, q) && (q.work.stopped <==> q.work.localReply.Some?)
    ensures !Pauses(s.f, w)
    ensures var (s', status) := HeadersEnd(s, w);
      && Settled(s') && s'.f.trace == q.trace + Outcome(q, false) && s'.f.cfg == q.cfg
      && (s'.f.work.stopped <==> q.work.localReply.Some?)
      && status == (if q.work.localReply.Some? then Stop else Continue)
  {
    ConcludeOutcome(s, w);
    SameOutcome(s.f, q, false);
  }

  ghost predicate OnlyFlagsDiffer(f: Filter, q: Filter) {
    f == q.(calloutState := f.calloutState, calloutFn := f.calloutFn, goStarted := f.goStarted,
      goCompleted := f.goCompleted)
  }

  lemma SameOutcome(f: Filter, g: Filter, continueReq: bool)
    requires f.work == g.work && f.strip == g.strip && f.buffered == g.buffered
    ensures Outcome(f, continueReq) == Outcome(g, continueReq)
  {
  }

  /**
   The handoff over every run of a filter without a body handler, for all four kinds of callout.

   A handler that leaves no callback pending is flushed once before OnRequestHeaders returns, without
   ContinueRequest, and nothing later touches the handle. A handler that leaves one pending has its mutations
   and the callback's flushed exactly once, at the delivery that runs the callback, followed by
   ContinueRequest unless a local response is queued; if the stream ends first, nothing is ever applied, and
   as long as neither happens Envoy still owes a delivery. No request callback returns Continue before that
   flush, and after it they return Continue exactly when no local response was sent.
   */
  lemma HandoffTheorem(cfg: Config, script: seq<Action>, endOfStream: bool, es: seq<Event>)
    requires !cfg.hasBodyHandler && LegalScript(NEW_WRITER, script) && GoAsync !in script
    requires LegalRun(OnRequestHeaders(NewStream(cfg), script, [], endOfStream).0, es)
    ensures var (s, status) := OnRequestHeaders(NewStream(cfg), script, [], endOfStream);
      var q := Queued(NewStream(cfg), script);
      !LeavesPending(NewStream(cfg), script) ==>
        && status == (if q.work.localReply.Some? then Stop else Continue)
        && s.f.trace == Outcome(q, false) && Run(s, es).f.trace == s.f.trace
        && AllReturn(s, es, 0, status)
    ensures var (s, status) := OnRequestHeaders(NewStream(cfg), script, [], endOfStream);
      LeavesPending(NewStream(cfg), script) ==>
        status == Stop && s.f.trace == [] && PausedHandoff(s, es, Queued(NewStream(cfg), script))
  {
    HeadersOutcome(cfg, script, endOfStream);
    var (s, status) := OnRequestHeaders(NewStream(cfg), script, [], endOfStream);
    if LeavesPending(NewStream(cfg), script) {
      PausedFrom(s, es, Queued(NewStream(cfg), script));
    } else {
      SettledRun(s, es);
    }
  }

  /** The calls OnRequestBody makes when it does not pause: one flush, then the framing of a mutable body. */
  ghost function BodyOutcome(q: Filter, data: Bytes): seq<Effect> {
    if q.work.localReply.Some? then [ResponseSent(q.work.localReply.value)]
    else if !(q.cfg.bufferBody && q.cfg.mutableBody) then Outcome(q, false)
    else QueueEffects(q.work.queues, q.strip) + FramingEffects(q.work.replacement, data)
  }

  function FramingEffects(replacement: Option<Bytes>, data: Bytes): seq<Effect> {
    match replacement
    case None => [HeaderSet(CONTENT_LENGTH, Itoa(|data|))]
    case Some(r) => [BufferReplaced(r), HeaderSet(CONTENT_LENGTH, Itoa(|r|))]
  }

  lemma BodyEndOutcome(s: Stream, w: Writer, frame: Bytes, data: Bytes)
    requires Handling(s, w) && !w.goStarted && !(w.calloutStarted && Armed(s))
    requires s.f.work.stopped <==> s.f.work.localReply.Some?
    ensures var (s', status, _) := BodyEnd(s, w, frame, data);
      && Settled(s') && s'.f.cfg == s.f.cfg
      && s'.f.trace == s.f.trace + BodyOutcome(s.f, data)
      && (s'.f.work.stopped <==> s.f.work.localReply.Some?)
      && (s.f.work.localReply.None? ==> s'.f.work == NO_WORK && !s'.f.strip && s'.f.buffered.None?)
      && status == (if s.f.work.localReply.Some? then Stop else Continue)
  {
    var s1 := s.(f := FlushCompleted(s.f, w));
    assert s1.f == s.f.(calloutState := s1.f.calloutState);
    if s1.f.cfg.bufferBody && s1.f.cfg.mutableBody && s1.f.work.replacement.Some? {
      ReplacedBodyOutcome(s1, frame, data);
    } else {
      KeptBodyOutcome(s1, frame, data);
    }
  }

  lemma ReplacedBodyOutcome(s: Stream, frame: Bytes, data: Bytes)
    requires s.f.cfg.bufferBody && s.f.cfg.mutableBody && s.f.work.replacement.Some?
    requires s.f.work.stopped <==> s.f.work.localReply.Some?
    ensures var (s', status, _) := ReplacedBodyEnd(s, frame);
      && s'.f == s.f.(trace := s.f.trace + BodyOutcome(s.f, data), work := s'.f.work, strip := s'.f.strip,
        buffered := s'.f.buffered)
      && s' == s.(f := s'.f)
      && (s'.f.work.stopped <==> s.f.work.localReply.Some?)
      && (s.f.work.localReply.None? ==> s'.f.work == NO_WORK && !s'.f.strip && s'.f.buffered.None?)
      && status == (if s.f.work.localReply.Some? then Stop else Continue)
  {
    var bare := s.f.(work := s.f.work.(replacement := None));
    if s.f.work.localReply.None? {
      assert Outcome(bare, false) == QueueEffects(s.f.work.queues, s.f.strip);
    }
  }

  lemma KeptBodyOutcome(s: Stream, frame: Bytes, data: Bytes)
    requires s.f.cfg.bufferBody && s.f.cfg.mutableBody ==> s.f.work.replacement.None?
    requires s.f.work.stopped <==> s.f.work.localReply.Some?
    ensures var (s', status, _) := KeptBodyEnd(s, frame, data);
      && s'.f == s.f.(trace := s.f.trace + BodyOutcome(s.f, data), work := s'.f.work, strip := s'.f.strip,
        buffered := s'.f.buffered)
      && s' == s.(f := s'.f)
      && (s'.f.work.stopped <==> s.f.work.localReply.Some?)
      && (s.f.work.localReply.None? ==> s'.f.work == NO_WORK && !s'.f.strip && s'.f.buffered.None?)
      && status == (if s.f.work.localReply.Some? then Stop else Continue)
  {
    if s.f.work.localReply.None? && s.f.cfg.bufferBody && s.f.cfg.mutableBody {
      assert Outcome(s.f, false) == QueueEffects(s.f.work.queues, s.f.strip);
    }
  }

  /** The body handler is called on this frame: every frame of a streamed body, the last one of a buffered body. */
  predicate RunsBody(s: Stream, endOfStream: bool) {
    s.f.cfg.hasBodyHandler && (s.f.cfg.bufferBody ==> endOfStream)
  }

  /**
   The same handoff for every frame on which the body handler runs, streamed or buffered. A handler that leaves
   nothing pending has its mutations applied before the callback returns, and nothing stays queued unless a local
   response was sent.
   */
  lemma BodyHandoffTheorem(s: Stream, frame: Bytes, endOfStream: bool, script: seq<Action>, es: seq<Event>)
    requires RunsBody(s, endOfStream) && Ready(s) && LegalScript(NEW_WRITER, script) && GoAsync !in script
    requires LegalRun(OnRequestBody(s, frame, endOfStream, script).0, es) && forall e | e in es :: !e.Body?
    ensures var (s', status, _) := OnRequestBody(s, frame, endOfStream, script);
      var q := Queued(s, script);
      !LeavesPending(s, script) ==>
        && status == (if q.work.localReply.Some? then Stop else Continue)
        && s'.f.trace == s.f.trace + BodyOutcome(q, BodyData(s.f, frame)) && Run(s', es).f.trace == s'.f.trace
        && (q.work.localReply.None? ==> s'.f.work == NO_WORK && !s'.f.strip && s'.f.buffered.None?)
        && AllReturn(s', es, 0, status)
    ensures var (s', status, _) := OnRequestBody(s, frame, endOfStream, script);
      LeavesPending(s, script) ==>
        status == Stop && s'.f.trace == s.f.trace && PausedHandoff(s', es, Queued(s, script))
  {
    AfterScript(s, script);
    var (s1, w) := RunScript(s, NEW_WRITER, script);
    var (s', _, _) := OnRequestBody(s, frame, endOfStream, script);
    if LeavesPending(s, script) {
      BodyPauses(s, frame, endOfStream, script);
      PausedFrom(s', es, Queued(s, script));
    } else {
      BodyConcludes(s, frame, endOfStream, script);
      SettledRun(s', es);
    }
  }

  lemma BodyPauses(s: Stream, frame: Bytes, endOfStream: bool, script: seq<Action>)
    requires RunsBody(s, endOfStream) && Ready(s) && LegalScript(NEW_WRITER, script) && GoAsync !in script
    requires LeavesPending(s, script)
    ensures var (s', status, _) := OnRequestBody(s, frame, endOfStream, script);
      var q := Queued(s, script);
      && Waiting(s') && status == Stop && s'.f.trace == s.f.trace
      && s'.f.work == q.work && s'.f.strip == q.strip && s'.f.cfg == q.cfg
      && s'.f.buffered == Some(Contents(s.f.buffered) + frame)
  {
    AfterScript(s, script);
    var (s1, w) := RunScript(s, NEW_WRITER, script);
    PauseOutcome(s1, w, Buffer(s1.f, frame).buffered);
  }

  lemma BodyConcludes(s: Stream, frame: Bytes, endOfStream: bool, script: seq<Action>)
    requires RunsBody(s, endOfStream) && Ready(s) && LegalScript(NEW_WRITER, script) && GoAsync !in script
    requires !LeavesPending(s, script)
    ensures var (s', status, _) := OnRequestBody(s, frame, endOfStream, script);
      var q := Queued(s, script);
      && Settled(s') && s'.f.cfg == s.f.cfg
      && s'.f.trace == s.f.trace + BodyOutcome(q, BodyData(s.f, frame))
      && (s'.f.work.stopped <==> q.work.localReply.Some?)
      && (q.work.localReply.None? ==> s'.f.work == NO_WORK && !s'.f.strip && s'.f.buffered.None?)
      && status == (if q.work.localReply.Some? then Stop else Continue)
  {
    AfterScript(s, script);
    var (s1, w) := RunScript(s, NEW_WRITER, script);
    BodyEndOutcome(s1, w, frame, BodyData(s.f, frame));
    SameOutcome(s1.f, Queued(s, script), false);
  }
}
