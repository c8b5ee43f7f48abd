/** The exact limits of the rule that a stopped request stays held and that a paused callout's callback runs. */
module HandoffLimits {
  import opened Common
  import opened FilterSpec
  import opened Handoff
  import opened HandoffRuns
  import opened HandoffGo
  import CalloutSequences

  // ---------------------------------------------------------------------------------------------
  // A goroutine does not hold the body

  /**
   A header callback that returned Stop holds the body only while a callout is paused or a local response is
   queued. A goroutine does not hold it: without a body handler the next frame is released, and the headers
   with it, exactly when the handler used Go and rejected nothing.
   */
  lemma GoDoesNotHoldTheBody(cfg: Config, script: seq<Action>, frame: Bytes)
    requires !cfg.hasBodyHandler && LegalScript(NEW_WRITER, script)
    ensures var (s, status) := OnRequestHeaders(NewStream(cfg), script, [], false);
      status == Stop ==>
        (OnRequestBody(s, frame, true, []).1 == Continue
         <==> s.f.goStarted && FirstReply(ScriptMutations(NEW_WRITER, script)).None?)
  {
    ScriptOnlyQueues(NewStream(cfg), NEW_WRITER, script);
    SingleSlots(NO_WORK, cfg.mutableBody, ScriptMutations(NEW_WRITER, script));
  }

  /** A run that shows it: a handler that only calls Go is stopped, and its first body frame is let through. */
  lemma GoReleasesTheBody()
    ensures var (s, status) := OnRequestHeaders(NewStream(Config(false, false, false)), [GoAsync], [], false);
      status == Stop && OnRequestBody(s, [], true, []).1 == Continue && s.running == 1 && s.f.trace == []
  {
    assert RunScript(NewStream(Config(false, false, false)), NEW_WRITER, [GoAsync]) ==
      (StartGo(NewStream(Config(false, false, false))), NEW_WRITER.(goStarted := true));
  }

  // ---------------------------------------------------------------------------------------------
  // A paused callout does not hold the body from a body handler

  /** A call that leaves work outstanding when it returns: Go, or a callout accepted and not completed inside it. */
  predicate Waits(a: Action) {
    || a.GoAsync?
    || (a.Callout? && (a.start.SequenceStart? ==> CalloutSequences.Settles(a.start.decisions))
        && Accepted(a.start) && !FiresAtOnce(a.start))
  }

  lemma {:induction false} OneCallout(w: Writer, script: seq<Action>)
    requires LegalScript(w, script) && (w.calloutStarted || w.goStarted)
    ensures forall a | a in script :: a.Mutate?
  {
    if script != [] { OneCallout(w, script[1..]); }
  }

  lemma {:induction false} MutationsKeepFlags(s: Stream, w: Writer, script: seq<Action>)
    requires LegalScript(w, script) && forall a | a in script :: a.Mutate?
    ensures var (s', w') := RunScript(s, w, script);
      w' == w && s'.f.calloutState == s.f.calloutState && s'.f.calloutFn == s.f.calloutFn
      && s'.f.goStarted == s.f.goStarted && s'.op == s.op
    decreases |script|
  {
    if script != [] {
      assert script[0] in script;
      MutationsKeepFlags(s.(f := EnqueueAll(s.f, [script[0].m])), w, script[1..]);
    }
  }

  /**
   After a handler, the request callback pauses or waits for a goroutine exactly when some call left work
   outstanding.
   */
  lemma {:induction false} ScriptWaits(s: Stream, w: Writer, script: seq<Action>)
    requires LegalScript(w, script) && !w.calloutStarted && !w.goStarted && !s.f.goStarted
    ensures var (s', w') := RunScript(s, w, script);
      Pauses(s'.f, w') || s'.f.goStarted <==> exists a | a in script :: Waits(a)
    decreases |script|
  {
    if script != [] {
      var rest := script[1..];
      assert forall a :: a in script <==> a == script[0] || a in rest;
      match script[0]
      case Mutate(m) => ScriptWaits(s.(f := EnqueueAll(s.f, [m])), w, rest);
      case GoAsync =>
        OneCallout(w.(goStarted := true), rest);
        MutationsKeepFlags(StartGo(s), w.(goStarted := true), rest);
        assert Waits(script[0]);
      case Callout(st, callback) =>
        StartOnlyQueues(s, st, callback);
        var s1, w1 := StartCallout(s, st, callback), w.(calloutStarted := Accepted(st));
        if Accepted(st) {
          OneCallout(w1, rest);
          MutationsKeepFlags(s1, w1, rest);
          assert Waits(script[0]) <==> Pauses(s1.f, w1);
        } else {
          ScriptWaits(s1, w1, rest);
        }
    }
  }

  /** The flush of a body callback clears the stop flag unless it sends a local response. */
  lemma BodyEndStatus(s: Stream, w: Writer, frame: Bytes, data: Bytes)
    requires s.f.work.localReply.Some? ==> s.f.work.stopped
    ensures BodyEnd(s, w, frame, data).1 == if s.f.work.localReply.Some? then Stop else Continue
  {
  }

  /**
   A body handler's frame consults neither the paused state nor the stop flag: it returns Continue exactly when the
   handler runs on this frame, leaves no work of its own outstanding, and no local response is queued by then.
   */
  lemma BodyReleasesIff(s: Stream, frame: Bytes, endOfStream: bool, script: seq<Action>)
    requires s.f.cfg.hasBodyHandler && LegalScript(NEW_WRITER, script) && !s.f.goStarted
    requires s.f.work.localReply.Some? ==> s.f.work.stopped
    ensures OnRequestBody(s, frame, endOfStream, script).1 == Continue <==>
      && RunsBody(s, endOfStream) && (forall a | a in script :: !Waits(a))
      && s.f.work.localReply.None? && FirstReply(ScriptMutations(NEW_WRITER, script)).None?
  {
    if RunsBody(s, endOfStream) {
      ScriptWaits(s, NEW_WRITER, script);
      ScriptQueues(s, NEW_WRITER, script);
      SingleSlots(s.f.work, s.f.cfg.mutableBody, ScriptMutations(NEW_WRITER, script));
      var (s1, w) := RunScript(s, NEW_WRITER, script);
      BodyEndStatus(s1, w, frame, BodyData(s.f, frame));
    }
  }

  /** With a body handler a paused callout does not hold the request. */
  lemma BodyHandlerReleasesPausedRequest(s: Stream, frame: Bytes, endOfStream: bool, script: seq<Action>)
    requires Waiting(s) && s.f.cfg.hasBodyHandler && LegalScript(NEW_WRITER, script)
    ensures OnRequestBody(s, frame, endOfStream, script).1 == Continue <==>
      && RunsBody(s, endOfStream) && (forall a | a in script :: !Waits(a))
      && s.f.work.localReply.None? && FirstReply(ScriptMutations(NEW_WRITER, script)).None?
  {
    BodyReleasesIff(s, frame, endOfStream, script);
  }

  // ---------------------------------------------------------------------------------------------
  // A rejected request is not held from a body handler

  /** A rejection has been sent and nothing else is outstanding. */
  ghost predicate Rejected(s: Stream) {
    Settled(s) && !s.f.streamDone && s.f.work.stopped && s.f.work.localReply.None?
  }

  /**
   With a body handler a rejected request is not held either: after the local response was sent, a frame returns
   Continue exactly when the handler runs on it, leaves no work of its own outstanding and does not reject again.
   Then the mutations left over from the rejected callback are applied with the new ones and the stop flag is gone.
   */
  lemma BodyHandlerReleasesRejectedRequest(s: Stream, frame: Bytes, endOfStream: bool, script: seq<Action>)
    requires Rejected(s) && s.f.cfg.hasBodyHandler && LegalScript(NEW_WRITER, script)
    ensures var (s', status, _) := OnRequestBody(s, frame, endOfStream, script);
      && (status == Continue <==>
            && RunsBody(s, endOfStream) && (forall a | a in script :: !Waits(a))
            && FirstReply(ScriptMutations(NEW_WRITER, script)).None?)
      && (status == Continue ==>
            !s'.f.work.stopped && s'.f.trace == s.f.trace + BodyOutcome(Queued(s, script), BodyData(s.f, frame)))
  {
    BodyReleasesIff(s, frame, endOfStream, script);
    if OnRequestBody(s, frame, endOfStream, script).1 == Continue {
      ScriptWaits(s, NEW_WRITER, script);
      ScriptQueues(s, NEW_WRITER, script);
      SingleSlots(s.f.work, s.f.cfg.mutableBody, ScriptMutations(NEW_WRITER, script));
      var (s1, w) := RunScript(s, NEW_WRITER, script);
      ReleasedTrace(s1, w, frame, BodyData(s.f, frame));
      SameOutcome(s1.f, Queued(s, script), false);
    }
  }

  lemma ReleasedTrace(s: Stream, w: Writer, frame: Bytes, data: Bytes)
    requires s.f.work.localReply.None?
    ensures var s' := BodyEnd(s, w, frame, data).0;
      !s'.f.work.stopped && s'.f.trace == s.f.trace + BodyOutcome(s.f, data)
  {
    var s1 := s.(f := FlushCompleted(s.f, w));
    if s1.f.cfg.bufferBody && s1.f.cfg.mutableBody && s1.f.work.replacement.Some? {
      ReleasedReplaced(s1, frame, data);
    } else {
      ReleasedKept(s1, frame, data);
    }
  }

  lemma ReleasedReplaced(s: Stream, frame: Bytes, data: Bytes)
    requires s.f.work.localReply.None? && s.f.cfg.bufferBody && s.f.cfg.mutableBody && s.f.work.replacement.Some?
    ensures var s' := ReplacedBodyEnd(s, frame).0;
      !s'.f.work.stopped && s'.f.trace == s.f.trace + BodyOutcome(s.f, data)
  {
    var bare := s.f.(work := s.f.work.(replacement := None));
    assert Outcome(bare, false) == QueueEffects(s.f.work.queues, s.f.strip);
  }

  lemma ReleasedKept(s: Stream, frame: Bytes, data: Bytes)
    requires s.f.work.localReply.None? && (s.f.cfg.bufferBody && s.f.cfg.mutableBody ==> s.f.work.replacement.None?)
    ensures var s' := KeptBodyEnd(s, frame, data).0;
      !s'.f.work.stopped && s'.f.trace == s.f.trace + BodyOutcome(s.f, data)
  {
    if s.f.cfg.bufferBody && s.f.cfg.mutableBody {
      assert Outcome(s.f, false) == QueueEffects(s.f.work.queues, s.f.strip);
    }
  }

  /** A run that shows it: the response is sent, and the next frame applies the stale header and is let through. */
  lemma RejectedRequestIsReleased(h: HeaderMutation, r: LocalResponse)
    ensures var script := [Mutate(OfHeader(h)), Mutate(OfReply(r))];
      && LegalScript(NEW_WRITER, script)
      && var (s, status) := OnRequestHeaders(NewStream(Config(true, false, false)), script, [], false);
         var (s', status', _) := OnRequestBody(s, [], false, []);
         && status == Stop && Rejected(s) && s.f.trace == [ResponseSent(r)]
         && status' == Continue && s'.f.trace == [ResponseSent(r), HeaderEffect(h)]
  {
    var s0, script := NewStream(Config(true, false, false)), [Mutate(OfHeader(h)), Mutate(OfReply(r))];
    assert script[1..] == [Mutate(OfReply(r))];
    var work := NO_WORK.(queues := NO_QUEUES.(headers := [h]), localReply := Some(r), stopped := true);
    assert RunScript(s0, NEW_WRITER, script) == (s0.(f := s0.f.(work := work)), NEW_WRITER) by {
      RejectingScript(s0, h, r);
    }
    var s := OnRequestHeaders(s0, script, [], false).0;
    assert s.f == s0.f.(work := work.(localReply := None), trace := [ResponseSent(r)]);
    assert HeaderEffects([h]) == [HeaderEffect(h)];
    assert Outcome(s.f, false) == [HeaderEffect(h)];
  }

  lemma RejectingScript(s0: Stream, h: HeaderMutation, r: LocalResponse)
    requires s0.f.work == NO_WORK
    ensures var script := [Mutate(OfHeader(h)), Mutate(OfReply(r))];
      && LegalScript(NEW_WRITER, script)
      && RunScript(s0, NEW_WRITER, script) ==
           (s0.(f := s0.f.(work := NO_WORK.(queues := NO_QUEUES.(headers := [h]), localReply := Some(r),
             stopped := true))),
            NEW_WRITER)
  {
    var script := [Mutate(OfHeader(h)), Mutate(OfReply(r))];
    assert script[1..] == [Mutate(OfReply(r))] && script[1..][1..] == [];
    var w1 := QueueOne(NO_WORK, s0.f.cfg.mutableBody, OfHeader(h));
    assert w1 == NO_WORK.(queues := NO_QUEUES.(headers := [h]));
    assert [OfHeader(h)][1..] == [] && [OfReply(r)][1..] == [];
    assert QueueAll(NO_WORK, s0.f.cfg.mutableBody, [OfHeader(h)]) == w1;
    assert QueueAll(w1, s0.f.cfg.mutableBody, [OfReply(r)]) == w1.(localReply := Some(r), stopped := true);
    var s1 := s0.(f := s0.f.(work := w1));
    assert RunScript(s0, NEW_WRITER, script) == RunScript(s1, NEW_WRITER, [Mutate(OfReply(r))]);
    var s2 := s1.(f := EnqueueAll(s1.f, [OfReply(r)]));
    assert [Mutate(OfReply(r))][1..] == [];
    assert RunScript(s1, NEW_WRITER, [Mutate(OfReply(r))]) == RunScript(s2, NEW_WRITER, []);
  }

  const PAUSING_SCRIPT := [Callout(HttpStart(true, false), [])]
  const REJECTED_SCRIPT := [Callout(HttpStart(false, false), [])]

  /** A run that shows it: the header callout is paused, and the body handler's first frame releases the request. */
  lemma PausedRequestIsReleased()
    ensures LegalScript(NEW_WRITER, PAUSING_SCRIPT)
    ensures var (s, status) := OnRequestHeaders(NewStream(Config(true, false, false)), PAUSING_SCRIPT, [], false);
      var (s', status', _) := OnRequestBody(s, [], false, []);
      && status == Stop && Waiting(s)
      && status' == Continue && s'.f.calloutState == Paused && s'.f.calloutFn
  {
    PausedStart();
  }

  lemma PausedStart()
    ensures LegalScript(NEW_WRITER, PAUSING_SCRIPT)
    ensures var (s, status) := OnRequestHeaders(NewStream(Config(true, false, false)), PAUSING_SCRIPT, [], false);
      && status == Stop && Waiting(s)
      && s.f == NewFilter(Config(true, false, false)).(calloutState := Paused, calloutFn := true)
      && s.op == NoOp && s.running == 0 && s.scheduled == 0
  {
    var s0 := NewStream(Config(true, false, false));
    assert RunScript(s0, NEW_WRITER, PAUSING_SCRIPT) ==
      (s0.(f := s0.f.(calloutFn := true)), NEW_WRITER.(calloutStarted := true));
  }

  // ---------------------------------------------------------------------------------------------
  // A callback that is lost

  predicate StartsHttp(a: Action) {
    a.Callout? && a.start.HttpStart?
  }

  /** Between Writer calls of a body handler while the header phase's single callout is outstanding. */
  ghost predicate Interrupting(s: Stream, w: Writer) {
    && Sound(s) && s.f.calloutFn && !s.f.streamDone && NoGoroutine(s)
    && !w.calloutStarted && !w.goStarted
  }

  lemma HttpReplaces(s: Stream, w: Writer, st: Start, callback: seq<Mutation>)
    requires Interrupting(s, w) && st.HttpStart?
    ensures Handling(StartCallout(s, st, callback), w.(calloutStarted := Accepted(st)))
  {
    StartOnlyQueues(s, st, callback);
  }

  /** One single callout more, and the filter has forgotten the paused one. */
  lemma {:induction false} InterruptedHandling(s: Stream, w: Writer, script: seq<Action>)
    requires Interrupting(s, w) && LegalScript(w, script)
    requires exists a | a in script :: StartsHttp(a)
    ensures Handling(RunScript(s, w, script).0, RunScript(s, w, script).1)
    decreases |script|
  {
    var rest := script[1..];
    assert forall a :: a in script <==> a == script[0] || a in rest;
    match script[0]
    case Mutate(m) => InterruptedHandling(s.(f := EnqueueAll(s.f, [m])), w, rest);
    case GoAsync => OneCallout(w.(goStarted := true), rest);
    case Callout(st, callback) =>
      var s1, w1 := StartCallout(s, st, callback), w.(calloutStarted := Accepted(st));
      if st.HttpStart? {
        HttpReplaces(s, w, st, callback);
        ScriptHandling(s1, w1, rest);
      } else if Accepted(st) {
        OneCallout(w1, rest);
      } else {
        StartOnlyQueues(s, st, callback);
        InterruptedHandling(s1, w1, rest);
      }
  }

  lemma {:induction false} CallbackKept(s: Stream, w: Writer, script: seq<Action>)
    requires LegalScript(w, script) && forall a | a in script :: !StartsHttp(a)
    ensures RunScript(s, w, script).0.f.calloutFn == s.f.calloutFn
    decreases |script|
  {
    if script != [] {
      assert script[0] in script;
      match script[0]
      case Mutate(m) => CallbackKept(s.(f := EnqueueAll(s.f, [m])), w, script[1..]);
      case GoAsync => CallbackKept(StartGo(s), w.(goStarted := true), script[1..]);
      case Callout(st, callback) =>
        StartOnlyQueues(s, st, callback);
        CallbackKept(StartCallout(s, st, callback), w.(calloutStarted := Accepted(st)), script[1..]);
    }
  }

  /**
   A frame on which the body handler leaves nothing outstanding, while a single callout of the header phase is
   paused: the callout's callback is still to run exactly when the handler started no single callout of its own,
   accepted or rejected.
   */
  lemma PausedCallbackSurvivesIff(s: Stream, frame: Bytes, endOfStream: bool, script: seq<Action>)
    requires Waiting(s) && s.f.calloutFn && RunsBody(s, endOfStream)
    requires LegalScript(NEW_WRITER, script) && forall a | a in script :: !Waits(a)
    ensures OnRequestBody(s, frame, endOfStream, script).0.f.calloutFn <==> forall a | a in script :: !StartsHttp(a)
    ensures (exists a | a in script :: StartsHttp(a)) ==> Settled(OnRequestBody(s, frame, endOfStream, script).0)
  {
    ScriptWaits(s, NEW_WRITER, script);
    var (s1, w) := RunScript(s, NEW_WRITER, script);
    BodyEndKeepsGo(s1, w, frame, BodyData(s.f, frame));
    if exists a | a in script :: StartsHttp(a) {
      InterruptedSettles(s, frame, endOfStream, script);
    } else {
      CallbackKept(s, NEW_WRITER, script);
    }
  }

  lemma InterruptedSettles(s: Stream, frame: Bytes, endOfStream: bool, script: seq<Action>)
    requires Waiting(s) && s.f.calloutFn && RunsBody(s, endOfStream)
    requires LegalScript(NEW_WRITER, script) && forall a | a in script :: !Waits(a)
    requires exists a | a in script :: StartsHttp(a)
    ensures Settled(OnRequestBody(s, frame, endOfStream, script).0)
    ensures OnRequestBody(s, frame, endOfStream, script).0.f.cfg == s.f.cfg
  {
    ScriptWaits(s, NEW_WRITER, script);
    InterruptedHandling(s, NEW_WRITER, script);
    ScriptQueues(s, NEW_WRITER, script);
    SingleSlots(s.f.work, s.f.cfg.mutableBody, ScriptMutations(NEW_WRITER, script));
    var (s1, w) := RunScript(s, NEW_WRITER, script);
    BodyEndOutcome(s1, w, frame, BodyData(s.f, frame));
  }

  lemma {:induction false} SettledNeverFires(s: Stream, es: seq<Event>)
    requires Settled(s) && LegalRun(s, es) && NoLaterHandler(s, es)
    ensures FirstFiring(s, es) == None
    decreases |es|
  {
    if es != [] {
      SettledStep(s, es[0]);
      if es[0].Delivered? { AdvanceSound(s, es[0].d); }
      SettledNeverFires(Step(s, es[0]), es[1..]);
    }
  }

  /** The lost callback: no later delivery runs it, and none reaches the handle. */
  lemma PausedCallbackIsLost(s: Stream, frame: Bytes, endOfStream: bool, script: seq<Action>, es: seq<Event>)
    requires Waiting(s) && s.f.calloutFn && RunsBody(s, endOfStream)
    requires LegalScript(NEW_WRITER, script) && forall a | a in script :: !Waits(a)
    requires exists a | a in script :: StartsHttp(a)
    requires LegalRun(OnRequestBody(s, frame, endOfStream, script).0, es) && forall e | e in es :: !e.Body?
    ensures var s' := OnRequestBody(s, frame, endOfStream, script).0;
      FirstFiring(s', es) == None && Run(s', es).f.trace == s'.f.trace
  {
    InterruptedSettles(s, frame, endOfStream, script);
    var s' := OnRequestBody(s, frame, endOfStream, script).0;
    SettledNeverFires(s', es);
    SettledRun(s', es);
  }

  /** A run that loses it: one rejected callout in the body handler releases the request and forgets the callback. */
  lemma RejectedCalloutLosesCallback()
    ensures LegalScript(NEW_WRITER, PAUSING_SCRIPT) && LegalScript(NEW_WRITER, REJECTED_SCRIPT)
    ensures var s := OnRequestHeaders(NewStream(Config(true, false, false)), PAUSING_SCRIPT, [], false).0;
      var (s', status, _) := OnRequestBody(s, [], false, REJECTED_SCRIPT);
      Waiting(s) && status == Continue && !Armed(s') && s'.f.calloutState == Active
  {
    PausedStart();
    var s := OnRequestHeaders(NewStream(Config(true, false, false)), PAUSING_SCRIPT, [], false).0;
    assert RunScript(s, NEW_WRITER, REJECTED_SCRIPT) ==
      (s.(f := s.f.(calloutFn := false, calloutState := Active)), NEW_WRITER);
  }
}
