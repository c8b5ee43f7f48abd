/** Goroutines started by Writer.Go: who may resume the request, how often, and what a dead stream still does. */
module HandoffGo {
  import opened Common
  import opened FilterSpec
  import opened Handoff
  import opened HandoffRuns
  import opened HandoffVerdicts
  import CalloutSequences

  // ---------------------------------------------------------------------------------------------
  // What touches the goroutine flags

  function GoStarts(script: seq<Action>): nat {
    if script == [] then 0 else (if script[0].GoAsync? then 1 else 0) + GoStarts(script[1..])
  }

  /** The same goroutines in the same state. */
  predicate SameGo(s: Stream, s': Stream) {
    && s'.f.goStarted == s.f.goStarted && s'.f.goCompleted == s.f.goCompleted && s'.f.streamDone == s.f.streamDone
    && s'.running == s.running && s'.scheduled == s.scheduled
  }

  /** A handler starts goroutines only through Go, and the latest start decides the flags. */
  lemma {:induction false} ScriptGo(s: Stream, w: Writer, script: seq<Action>)
    requires LegalScript(w, script)
    ensures var s' := RunScript(s, w, script).0;
      && s'.f.streamDone == s.f.streamDone && s'.scheduled == s.scheduled && s'.running == s.running + GoStarts(script)
      && (GoStarts(script) == 0 ==> SameGo(s, s'))
      && (GoStarts(script) > 0 ==> s'.f.goStarted && !s'.f.goCompleted)
    decreases |script|
  {
    if script != [] {
      match script[0]
      case Mutate(m) => ScriptGo(s.(f := EnqueueAll(s.f, [m])), w, script[1..]);
      case GoAsync => ScriptGo(StartGo(s), w.(goStarted := true), script[1..]);
      case Callout(st, callback) =>
        StartOnlyQueues(s, st, callback);
        ScriptGo(StartCallout(s, st, callback), w.(calloutStarted := Accepted(st)), script[1..]);
    }
  }

  lemma ScriptArbitrated(s: Stream, w: Writer, script: seq<Action>)
    requires LegalScript(w, script) && Arbitrated(s) && !s.f.streamDone
    ensures Arbitrated(RunScript(s, w, script).0)
  {
    ScriptGo(s, w, script);
  }

  /** The end of the body callback leaves the goroutine flags and the outstanding callback alone. */
  lemma BodyEndKeepsGo(s: Stream, w: Writer, frame: Bytes, data: Bytes)
    ensures SameGo(s, BodyEnd(s, w, frame, data).0) && BodyEnd(s, w, frame, data).0.f.calloutFn == s.f.calloutFn
  {
    var s1 := s.(f := FlushCompleted(s.f, w));
    if s1.f.cfg.bufferBody && s1.f.cfg.mutableBody && s1.f.work.replacement.Some? {
      ReplacedKeepsGo(s1, frame);
    } else {
      KeptKeepsGo(s1, frame, data);
    }
  }

  lemma ReplacedKeepsGo(s: Stream, frame: Bytes)
    requires s.f.work.replacement.Some?
    ensures SameGo(s, ReplacedBodyEnd(s, frame).0) && ReplacedBodyEnd(s, frame).0.f.calloutFn == s.f.calloutFn
  {
  }

  lemma KeptKeepsGo(s: Stream, frame: Bytes, data: Bytes)
    ensures SameGo(s, KeptBodyEnd(s, frame, data).0) && KeptBodyEnd(s, frame, data).0.f.calloutFn == s.f.calloutFn
  {
  }

  /** Apart from its handler, the body callback does not touch the goroutine flags. */
  lemma BodyKeepsGo(s: Stream, frame: Bytes, endOfStream: bool, script: seq<Action>)
    requires LegalScript(NEW_WRITER, script)
    ensures SameGo(if RunsBody(s, endOfStream) then RunScript(s, NEW_WRITER, script).0 else s,
                   OnRequestBody(s, frame, endOfStream, script).0)
  {
    if RunsBody(s, endOfStream) {
      var (s1, w) := RunScript(s, NEW_WRITER, script);
      BodyTailKeepsGo(s1, w, frame, BodyData(s.f, frame));
    }
  }

  lemma BodyTailKeepsGo(s: Stream, w: Writer, frame: Bytes, data: Bytes)
    ensures SameGo(s, BodyTail(s, w, frame, data).0)
  {
    BodyEndKeepsGo(s, w, frame, data);
  }

  /** The stream when all handlers of a header callback have run. */
  ghost function HandlersRan(s: Stream, script: seq<Action>, bodyScript: seq<Action>, endOfStream: bool): Stream
    requires LegalScript(NEW_WRITER, script)
    requires LegalScript(RunScript(s, NEW_WRITER, script).1, bodyScript)
  {
    var (s0, w) := RunScript(s, NEW_WRITER, script);
    var s1 := MarkStrip(s0, endOfStream);
    if Pauses(s1.f, w) || s1.f.goStarted || !endOfStream || !s.f.cfg.hasBodyHandler then s1
    else RunScript(s1, w, bodyScript).0
  }

  lemma HeadersKeepGo(s: Stream, script: seq<Action>, bodyScript: seq<Action>, endOfStream: bool)
    requires LegalScript(NEW_WRITER, script)
    requires LegalScript(RunScript(s, NEW_WRITER, script).1, bodyScript)
    ensures SameGo(HandlersRan(s, script, bodyScript, endOfStream),
      OnRequestHeaders(s, script, bodyScript, endOfStream).0)
    ensures Resumes(OnRequestHeaders(s, script, bodyScript, endOfStream).0.f.trace) == Resumes(s.f.trace)
  {
    ScriptQueues(s, NEW_WRITER, script);
    var (s0, w) := RunScript(s, NEW_WRITER, script);
    TailKeepsGo(MarkStrip(s0, endOfStream), w, bodyScript, endOfStream);
  }

  lemma TailKeepsGo(s: Stream, w: Writer, bodyScript: seq<Action>, endOfStream: bool)
    requires LegalScript(w, bodyScript)
    ensures var s' := HeadersTail(s, w, bodyScript, endOfStream).0;
      && Resumes(s'.f.trace) == Resumes(s.f.trace)
      && SameGo(if Pauses(s.f, w) || s.f.goStarted || !endOfStream || !s.f.cfg.hasBodyHandler then s
                else RunScript(s, w, bodyScript).0, s')
  {
    if Pauses(s.f, w) || s.f.goStarted || !endOfStream || !s.f.cfg.hasBodyHandler {
      HeadersEndKeepsGo(s, w);
    } else {
      ScriptQueues(s, w, bodyScript);
      HeadersEndKeepsGo(RunScript(s, w, bodyScript).0, RunScript(s, w, bodyScript).1);
    }
  }

  lemma HeadersEndKeepsGo(s: Stream, w: Writer)
    ensures SameGo(s, HeadersEnd(s, w).0) && Resumes(HeadersEnd(s, w).0.f.trace) == Resumes(s.f.trace)
  {
    FlushResumes(FlushCompleted(s.f, w), false);
  }

  // ---------------------------------------------------------------------------------------------
  // Arbitration with OnStreamComplete

  lemma ArbitratedStep(s: Stream, e: Event)
    requires Arbitrated(s) && Legal(s, e)
    ensures Arbitrated(Step(s, e))
  {
    if e.Body? {
      BodyKeepsGo(s, e.frame, e.endOfStream, e.script);
      ScriptArbitrated(s, NEW_WRITER, e.script);
    }
  }

  lemma {:induction false} ArbitratedRun(s: Stream, es: seq<Event>)
    requires Arbitrated(s) && LegalRun(s, es)
    ensures Arbitrated(Run(s, es))
    decreases |es|
  {
    if es != [] {
      ArbitratedStep(s, es[0]);
      ArbitratedRun(Step(s, es[0]), es[1..]);
    }
  }

  lemma HeadersArbitrated(cfg: Config, script: seq<Action>, bodyScript: seq<Action>, endOfStream: bool)
    requires LegalScript(NEW_WRITER, script)
    requires LegalScript(RunScript(NewStream(cfg), NEW_WRITER, script).1, bodyScript)
    ensures Arbitrated(OnRequestHeaders(NewStream(cfg), script, bodyScript, endOfStream).0)
  {
    HeadersKeepGo(NewStream(cfg), script, bodyScript, endOfStream);
    ScriptGo(NewStream(cfg), NEW_WRITER, script);
    var (s0, w) := RunScript(NewStream(cfg), NEW_WRITER, script);
    ScriptGo(MarkStrip(s0, endOfStream), w, bodyScript);
  }

  /**
   For every filter, with or without a body handler, and every run: once OnStreamComplete has happened, no
   later completion or goroutine makes a call on the handle.
   */
  lemma CompletedStreamIsSilent(
    cfg: Config, script: seq<Action>, bodyScript: seq<Action>, endOfStream: bool, es: seq<Event>, later: seq<Event>)
    requires LegalScript(NEW_WRITER, script)
    requires LegalScript(RunScript(NewStream(cfg), NEW_WRITER, script).1, bodyScript)
    requires LegalRun(OnRequestHeaders(NewStream(cfg), script, bodyScript, endOfStream).0, es)
    requires var s := Run(OnRequestHeaders(NewStream(cfg), script, bodyScript, endOfStream).0, es);
      s.f.streamDone && LegalRun(s, later)
    ensures var s := Run(OnRequestHeaders(NewStream(cfg), script, bodyScript, endOfStream).0, es);
      Run(s, later).f.trace == s.f.trace
  {
    HeadersArbitrated(cfg, script, bodyScript, endOfStream);
    var s1 := OnRequestHeaders(NewStream(cfg), script, bodyScript, endOfStream).0;
    ArbitratedRun(s1, es);
    DeadStreamIsSilent(Run(s1, es), later);
  }

  // ---------------------------------------------------------------------------------------------
  // Counting resumptions on the trace

  lemma {:induction false} ResumesConcat(a: seq<Effect>, b: seq<Effect>)
    ensures Resumes(a + b) == Resumes(a) + Resumes(b)
  {
    if a == [] {
      assert a + b == b;
    } else {
      assert (a + b)[1..] == a[1..] + b;
      ResumesConcat(a[1..], b);
    }
  }

  lemma FlushResumes(f: Filter, continueReq: bool)
    ensures Resumes(Flush(f, continueReq).trace)
         == Resumes(f.trace) + if continueReq && f.work.localReply.None? then 1 else 0
  {
    OutcomeCounts(f, continueReq);
    ResumesConcat(f.trace, Outcome(f, continueReq));
  }

  lemma ReplacedResumes(s: Stream, frame: Bytes)
    requires s.f.work.replacement.Some?
    ensures Resumes(ReplacedBodyEnd(s, frame).0.f.trace) == Resumes(s.f.trace)
  {
    var f0 := s.f.(work := s.f.work.(replacement := None));
    FlushResumes(f0, false);
    ForwardReplacedResumes(s.(f := Flush(f0, false)), frame, s.f.work.replacement.value);
  }

  lemma KeptResumes(s: Stream, frame: Bytes, data: Bytes)
    ensures Resumes(KeptBodyEnd(s, frame, data).0.f.trace) == Resumes(s.f.trace)
  {
    FlushResumes(s.f, false);
    ForwardKeptResumes(s.(f := Flush(s.f, false)), frame, data);
  }

  lemma ForwardKeptResumes(s: Stream, frame: Bytes, data: Bytes)
    ensures Resumes(ForwardKept(s, frame, data).0.f.trace) == Resumes(s.f.trace)
  {
    TailResumes(s.f.trace, [HeaderSet(CONTENT_LENGTH, Itoa(|data|))]);
  }

  lemma ForwardReplacedResumes(s: Stream, frame: Bytes, r: Bytes)
    ensures Resumes(ForwardReplaced(s, frame, r).0.f.trace) == Resumes(s.f.trace)
  {
    TailResumes(s.f.trace, [BufferReplaced(r), HeaderSet(CONTENT_LENGTH, Itoa(|r|))]);
  }

  lemma TailResumes(trace: seq<Effect>, tail: seq<Effect>)
    requires forall e | e in tail :: !e.ResponseSent? && !e.RequestContinued?
    ensures Resumes(trace + tail) == Resumes(trace)
  {
    ResumesConcat(trace, tail);
    NothingToCount(tail, []);
    assert tail + [] == tail;
  }

  /** The body callback never calls ContinueRequest itself. */
  lemma BodyResumes(s: Stream, frame: Bytes, endOfStream: bool, script: seq<Action>)
    requires LegalScript(NEW_WRITER, script)
    ensures Resumes(OnRequestBody(s, frame, endOfStream, script).0.f.trace) == Resumes(s.f.trace)
  {
    if RunsBody(s, endOfStream) {
      ScriptQueues(s, NEW_WRITER, script);
      var (s1, w) := RunScript(s, NEW_WRITER, script);
      BodyTailResumes(s1, w, frame, BodyData(s.f, frame));
    }
  }

  lemma BodyTailResumes(s: Stream, w: Writer, frame: Bytes, data: Bytes)
    ensures Resumes(BodyTail(s, w, frame, data).0.f.trace) == Resumes(s.f.trace)
  {
    BodyEndResumes(s, w, frame, data);
  }

  lemma BodyEndResumes(s: Stream, w: Writer, frame: Bytes, data: Bytes)
    ensures Resumes(BodyEnd(s, w, frame, data).0.f.trace) == Resumes(s.f.trace)
  {
    var s1 := s.(f := FlushCompleted(s.f, w));
    if s1.f.cfg.bufferBody && s1.f.cfg.mutableBody && s1.f.work.replacement.Some? {
      ReplacedResumes(s1, frame);
    } else {
      KeptResumes(s1, frame, data);
    }
  }

  /** ContinueRequest calls that one event adds to the trace. */
  ghost function Resumed(s: Stream, e: Event): int
    requires Legal(s, e)
  {
    Resumes(Step(s, e).f.trace) - Resumes(s.f.trace)
  }

  lemma ResumedStep(s: Stream, e: Event)
    requires Legal(s, e)
    ensures e.GoFinishes? ==> Resumed(s, e) == if !s.f.goCompleted && s.f.work.localReply.None? then 1 else 0
    ensures e.Delivered? ==> 0 <= Resumed(s, e) <= 1
    ensures !e.GoFinishes? && !e.Delivered? ==> Resumed(s, e) == 0
  {
    match e
    case Body(frame, endOfStream, script) => BodyResumes(s, frame, endOfStream, script);
    case Delivered(d, callback) => FinishResumes(s.f.(calloutFn := if d.HttpDone? then false else s.f.calloutFn),
      callback);
    case GoFinishes => FlushResumes(s.f.(goCompleted := true, goStarted := false), true);
    case _ =>
  }

  lemma FinishResumes(f: Filter, callback: seq<Mutation>)
    ensures var added := Resumes(FinishCallout(f, callback).trace) - Resumes(f.trace);
      0 <= added <= 1 && (f.calloutState != Paused ==> added == 0)
  {
    FlushResumes(EnqueueAll(f, callback).(calloutState := Flushed), true);
  }

  /** ContinueRequest calls made by the scheduled finishes of goroutines. */
  ghost function GoResumes(s: Stream, es: seq<Event>): int
    requires LegalRun(s, es)
    decreases |es|
  {
    if es == [] then 0
    else (if es[0].GoFinishes? then Resumed(s, es[0]) else 0) + GoResumes(Step(s, es[0]), es[1..])
  }

  /** ContinueRequest calls made by completions. */
  ghost function CalloutResumes(s: Stream, es: seq<Event>): int
    requires LegalRun(s, es)
    decreases |es|
  {
    if es == [] then 0
    else (if es[0].Delivered? then Resumed(s, es[0]) else 0) + CalloutResumes(Step(s, es[0]), es[1..])
  }

  /** Go calls made by the body handler in a run. */
  ghost function GoStartsIn(s: Stream, es: seq<Event>): nat
    requires LegalRun(s, es)
    decreases |es|
  {
    if es == [] then 0
    else (if es[0].Body? && RunsBody(s, es[0].endOfStream) then GoStarts(es[0].script) else 0)
         + GoStartsIn(Step(s, es[0]), es[1..])
  }

  /** A goroutine has been started since the last resumption and may still resume the request. */
  function Credit(s: Stream): nat {
    if !s.f.goCompleted && s.running + s.scheduled > 0 then 1 else 0
  }

  lemma CreditStep(s: Stream, e: Event)
    requires Arbitrated(s) && Legal(s, e)
    ensures (if e.GoFinishes? then Resumed(s, e) else 0) + Credit(Step(s, e))
         <= (if e.Body? && RunsBody(s, e.endOfStream) then GoStarts(e.script) else 0) + Credit(s)
  {
    ResumedStep(s, e);
    if e.Body? {
      ScriptGo(s, NEW_WRITER, e.script);
      BodyKeepsGo(s, e.frame, e.endOfStream, e.script);
    }
  }

  lemma {:induction false} CreditRun(s: Stream, es: seq<Event>)
    requires Arbitrated(s) && LegalRun(s, es)
    ensures GoResumes(s, es) + Credit(Run(s, es)) <= GoStartsIn(s, es) + Credit(s)
    decreases |es|
  {
    if es != [] {
      CreditStep(s, es[0]);
      ArbitratedStep(s, es[0]);
      CreditRun(Step(s, es[0]), es[1..]);
    }
  }

  lemma {:induction false} ResumesOfRun(s: Stream, es: seq<Event>)
    requires LegalRun(s, es)
    ensures Resumes(Run(s, es).f.trace) == Resumes(s.f.trace) + GoResumes(s, es) + CalloutResumes(s, es)
    decreases |es|
  {
    if es != [] {
      ResumedStep(s, es[0]);
      ResumesOfRun(Step(s, es[0]), es[1..]);
    }
  }

  /**
   For every filter and run, even when several goroutines overlap: every ContinueRequest on the trace was made by
   a completion or by the scheduled finish of a goroutine, and the finishes made at most one per call of Go.
   */
  lemma ResumedAtMostOncePerGo(
    cfg: Config, script: seq<Action>, bodyScript: seq<Action>, endOfStream: bool, es: seq<Event>)
    requires LegalScript(NEW_WRITER, script)
    requires LegalScript(RunScript(NewStream(cfg), NEW_WRITER, script).1, bodyScript)
    requires LegalRun(OnRequestHeaders(NewStream(cfg), script, bodyScript, endOfStream).0, es)
    ensures var s := OnRequestHeaders(NewStream(cfg), script, bodyScript, endOfStream).0;
      && Resumes(Run(s, es).f.trace) == GoResumes(s, es) + CalloutResumes(s, es)
      && GoResumes(s, es) <= GoStarts(script) + GoStarts(bodyScript) + GoStartsIn(s, es)
  {
    var s := OnRequestHeaders(NewStream(cfg), script, bodyScript, endOfStream).0;
    HeadersKeepGo(NewStream(cfg), script, bodyScript, endOfStream);
    ResumesOfRun(s, es);
    HeadersArbitrated(cfg, script, bodyScript, endOfStream);
    HeadersCredit(cfg, script, bodyScript, endOfStream);
    CreditRun(s, es);
  }

  lemma HeadersCredit(cfg: Config, script: seq<Action>, bodyScript: seq<Action>, endOfStream: bool)
    requires LegalScript(NEW_WRITER, script)
    requires LegalScript(RunScript(NewStream(cfg), NEW_WRITER, script).1, bodyScript)
    ensures Credit(OnRequestHeaders(NewStream(cfg), script, bodyScript, endOfStream).0) <= GoStarts(script)
      + GoStarts(bodyScript)
  {
    HeadersKeepGo(NewStream(cfg), script, bodyScript, endOfStream);
    ScriptGo(NewStream(cfg), NEW_WRITER, script);
    var (s0, w) := RunScript(NewStream(cfg), NEW_WRITER, script);
    ScriptGo(MarkStrip(s0, endOfStream), w, bodyScript);
  }

  // ---------------------------------------------------------------------------------------------
  // Counting resumptions by completions

  /** Callouts a handler starts that Envoy accepts. */
  function CalloutStarts(script: seq<Action>): nat {
    if script == [] then 0
    else (if script[0].Callout? && Accepted(script[0].start) then 1 else 0) + CalloutStarts(script[1..])
  }

  ghost function CalloutStartsIn(s: Stream, es: seq<Event>): nat
    requires LegalRun(s, es)
    decreases |es|
  {
    if es == [] then 0
    else (if es[0].Body? && RunsBody(s, es[0].endOfStream) then CalloutStarts(es[0].script) else 0)
         + CalloutStartsIn(Step(s, es[0]), es[1..])
  }

  /** Only a paused callout can resume the request. */
  function PauseCredit(s: Stream): nat {
    if s.f.calloutState == Paused then 1 else 0
  }

  /** A handler never pauses; it can pause afterwards only if one of its callouts was accepted. */
  lemma {:induction false} ScriptPauseCredit(s: Stream, w: Writer, script: seq<Action>)
    requires LegalScript(w, script)
    ensures var (s', w') := RunScript(s, w, script);
      && (s'.f.calloutState == Paused ==> s.f.calloutState == Paused)
      && (w'.calloutStarted ==> w.calloutStarted || CalloutStarts(script) > 0)
    decreases |script|
  {
    if script != [] {
      match script[0]
      case Mutate(m) => ScriptPauseCredit(s.(f := EnqueueAll(s.f, [m])), w, script[1..]);
      case GoAsync => ScriptPauseCredit(StartGo(s), w.(goStarted := true), script[1..]);
      case Callout(st, callback) =>
        StartNeverPauses(s, st, callback);
        ScriptPauseCredit(StartCallout(s, st, callback), w.(calloutStarted := Accepted(st)), script[1..]);
    }
  }

  lemma StartNeverPauses(s: Stream, st: Start, callback: seq<Mutation>)
    requires st.SequenceStart? ==> CalloutSequences.Settles(st.decisions)
    ensures StartCallout(s, st, callback).f.calloutState == Paused ==> s.f.calloutState == Paused
  {
    FinishNeverPauses(s.f, callback);
  }

  lemma FinishNeverPauses(f: Filter, callback: seq<Mutation>)
    ensures FinishCallout(f, callback).calloutState != Paused
  {
  }

  lemma BodyTailPauseCredit(s: Stream, w: Writer, frame: Bytes, data: Bytes)
    ensures PauseCredit(BodyTail(s, w, frame, data).0) <= PauseCredit(s) + if w.calloutStarted then 1 else 0
  {
    if !Pauses(s.f, w) && !s.f.goStarted { BodyEndPauseCredit(s, w, frame, data); }
  }

  lemma BodyEndPauseCredit(s: Stream, w: Writer, frame: Bytes, data: Bytes)
    ensures PauseCredit(BodyEnd(s, w, frame, data).0) == PauseCredit(s)
  {
    var s1 := s.(f := FlushCompleted(s.f, w));
    if s1.f.cfg.bufferBody && s1.f.cfg.mutableBody && s1.f.work.replacement.Some? {
      ReplacedKeepsState(s1, frame);
    } else {
      KeptKeepsState(s1, frame, data);
    }
  }

  lemma ReplacedKeepsState(s: Stream, frame: Bytes)
    requires s.f.work.replacement.Some?
    ensures ReplacedBodyEnd(s, frame).0.f.calloutState == s.f.calloutState
  {
    var flushed := Flush(s.f.(work := s.f.work.(replacement := None)), false);
    ForwardKeepsState(s.(f := flushed), frame, s.f.work.replacement.value);
  }

  lemma KeptKeepsState(s: Stream, frame: Bytes, data: Bytes)
    ensures KeptBodyEnd(s, frame, data).0.f.calloutState == s.f.calloutState
  {
    ForwardKeepsState(s.(f := Flush(s.f, false)), frame, data);
  }

  lemma ForwardKeepsState(s: Stream, frame: Bytes, data: Bytes)
    ensures ForwardKept(s, frame, data).0.f.calloutState == s.f.calloutState
    ensures ForwardReplaced(s, frame, data).0.f.calloutState == s.f.calloutState
  {
  }

  lemma BodyPauseCredit(s: Stream, frame: Bytes, endOfStream: bool, script: seq<Action>)
    requires LegalScript(NEW_WRITER, script)
    ensures PauseCredit(OnRequestBody(s, frame, endOfStream, script).0)
         <= PauseCredit(s) + if RunsBody(s, endOfStream) then CalloutStarts(script) else 0
  {
    if RunsBody(s, endOfStream) {
      ScriptPauseCredit(s, NEW_WRITER, script);
      var (s1, w) := RunScript(s, NEW_WRITER, script);
      BodyTailPauseCredit(s1, w, frame, BodyData(s.f, frame));
    }
  }

  /** A delivery that resumes spends the pause; no delivery creates one. */
  lemma DeliverySpendsPause(s: Stream, d: Delivery, callback: seq<Mutation>)
    requires LegalDelivery(s, d)
    ensures var s' := Deliver(s, d, callback);
      Resumes(s'.f.trace) - Resumes(s.f.trace) + PauseCredit(s') <= PauseCredit(s)
  {
    var f := s.f.(calloutFn := if d.HttpDone? then false else s.f.calloutFn);
    FinishResumes(f, callback);
    FinishNeverPauses(f, callback);
  }

  lemma PauseCreditStep(s: Stream, e: Event)
    requires Legal(s, e)
    ensures (if e.Delivered? then Resumed(s, e) else 0) + PauseCredit(Step(s, e))
         <= (if e.Body? && RunsBody(s, e.endOfStream) then CalloutStarts(e.script) else 0) + PauseCredit(s)
  {
    match e
    case Body(frame, endOfStream, script) => BodyPauseCredit(s, frame, endOfStream, script);
    case Delivered(d, callback) => DeliverySpendsPause(s, d, callback);
    case _ =>
  }

  lemma {:induction false} PauseCreditRun(s: Stream, es: seq<Event>)
    requires LegalRun(s, es)
    ensures CalloutResumes(s, es) + PauseCredit(Run(s, es)) <= CalloutStartsIn(s, es) + PauseCredit(s)
    decreases |es|
  {
    if es != [] {
      PauseCreditStep(s, es[0]);
      PauseCreditRun(Step(s, es[0]), es[1..]);
    }
  }

  lemma HeadersEndPauseCredit(s: Stream, w: Writer)
    ensures PauseCredit(HeadersEnd(s, w).0) <= PauseCredit(s) + if w.calloutStarted then 1 else 0
  {
  }

  lemma HeadersPauseCredit(cfg: Config, script: seq<Action>, bodyScript: seq<Action>, endOfStream: bool)
    requires LegalScript(NEW_WRITER, script)
    requires LegalScript(RunScript(NewStream(cfg), NEW_WRITER, script).1, bodyScript)
    ensures PauseCredit(OnRequestHeaders(NewStream(cfg), script, bodyScript, endOfStream).0)
         <= CalloutStarts(script) + CalloutStarts(bodyScript)
  {
    ScriptPauseCredit(NewStream(cfg), NEW_WRITER, script);
    var (s0, w) := RunScript(NewStream(cfg), NEW_WRITER, script);
    TailPauseCredit(MarkStrip(s0, endOfStream), w, bodyScript, endOfStream);
  }

  lemma TailPauseCredit(s: Stream, w: Writer, bodyScript: seq<Action>, endOfStream: bool)
    requires LegalScript(w, bodyScript)
    ensures PauseCredit(HeadersTail(s, w, bodyScript, endOfStream).0)
         <= PauseCredit(s) + if w.calloutStarted || CalloutStarts(bodyScript) > 0 then 1 else 0
  {
    HeadersEndPauseCredit(s, w);
    ScriptPauseCredit(s, w, bodyScript);
    var (s2, w2) := RunScript(s, w, bodyScript);
    HeadersEndPauseCredit(s2, w2);
  }

  /**
   For every filter, with or without a body handler, and every run: completions call ContinueRequest at most once
   per callout that Envoy accepted, so ContinueRequest is called at most once per Go or accepted callout in all.
   */
  lemma ResumedAtMostOncePerStart(
    cfg: Config, script: seq<Action>, bodyScript: seq<Action>, endOfStream: bool, es: seq<Event>)
    requires LegalScript(NEW_WRITER, script)
    requires LegalScript(RunScript(NewStream(cfg), NEW_WRITER, script).1, bodyScript)
    requires LegalRun(OnRequestHeaders(NewStream(cfg), script, bodyScript, endOfStream).0, es)
    ensures var s := OnRequestHeaders(NewStream(cfg), script, bodyScript, endOfStream).0;
      && CalloutResumes(s, es) <= CalloutStarts(script) + CalloutStarts(bodyScript) + CalloutStartsIn(s, es)
      && Resumes(Run(s, es).f.trace)
           <= GoStarts(script) + GoStarts(bodyScript) + GoStartsIn(s, es)
            + CalloutStarts(script) + CalloutStarts(bodyScript) + CalloutStartsIn(s, es)
  {
    ResumedAtMostOncePerGo(cfg, script, bodyScript, endOfStream, es);
    HeadersPauseCredit(cfg, script, bodyScript, endOfStream);
    PauseCreditRun(OnRequestHeaders(NewStream(cfg), script, bodyScript, endOfStream).0, es);
  }

  // ---------------------------------------------------------------------------------------------
  // The handoff of a goroutine

  /** A goroutine runs or has its finish scheduled, and nothing else is outstanding. */
  ghost predicate GoPending(s: Stream) {
    && !s.f.streamDone && s.f.goStarted && !s.f.goCompleted && s.running + s.scheduled == 1
    && Sound(s) && !Armed(s) && s.f.calloutState != Paused
    && (s.f.work.stopped <==> s.f.work.localReply.Some?)
  }

  /** The finish that resumes the request: its position, Envoy's buffer then, and what the goroutine queued. */
  ghost function GoFinishing(s: Stream, es: seq<Event>): Option<Firing>
    requires LegalRun(s, es)
    decreases |es|
  {
    if es == [] || es[0].StreamCompletes? then None
    else if es[0].GoFinishes? then Some(Firing(0, s.f.buffered, []))
    else
      match GoFinishing(Step(s, es[0]), es[1..])
      case None => None
      case Some(x) => Some(Firing(x.index + 1, x.buffered, (if es[0].GoDone? then es[0].ms else []) + x.callback))
  }

  /** What goroutines queued in a list of events. */
  function QueuedByGo(es: seq<Event>): seq<Mutation> {
    if es == [] then [] else (if es[0].GoDone? then es[0].ms else []) + QueuedByGo(es[1..])
  }

  /** The answer that the local response, if any, calls for once more mutations are queued. */
  ghost function Verdict(f: Filter, ms: seq<Mutation>): Status {
    if EnqueueAll(f, ms).work.localReply.Some? then Stop else Continue
  }

  /**
   While the goroutine is outstanding a request callback is held exactly by a local response queued so far: it
   returns Stop when the handler, or the goroutine before that event, rejected, and Continue otherwise.
   */
  ghost predicate HeldByReplyOnly(s: Stream, es: seq<Event>, f: Filter, upTo: nat)
    requires LegalRun(s, es)
  {
    forall i | 0 <= i < upTo && i < |es| && Statuses(s, es)[i].Some? ::
      Statuses(s, es)[i] == Some(Verdict(f, QueuedByGo(es[..i])))
  }

  lemma HeldShift(s: Stream, es: seq<Event>, upTo: nat)
    requires LegalRun(s, es) && es != []
    requires Returned(s, es[0]).Some? ==> Returned(s, es[0]) == Some(Verdict(s.f, []))
    requires var s' := Step(s, es[0]);
      && s'.f == EnqueueAll(s.f, if es[0].GoDone? then es[0].ms else []).(buffered := s'.f.buffered)
      && HeldByReplyOnly(s', es[1..], s'.f, upTo)
    ensures HeldByReplyOnly(s, es, s.f, upTo + 1)
  {
    StatusesShift(s, es);
    var s', ms := Step(s, es[0]), if es[0].GoDone? then es[0].ms else [];
    forall i | 0 <= i < upTo + 1 && i < |es| && Statuses(s, es)[i].Some?
      ensures Statuses(s, es)[i] == Some(Verdict(s.f, QueuedByGo(es[..i])))
    {
      if i > 0 {
        var before := es[1..][..i - 1];
        assert es[..i] == [es[0]] + before;
        QueuedFirst(es[0], before);
        VerdictShift(s.f, ms, s'.f, QueuedByGo(before));
      }
    }
  }

  lemma QueuedFirst(e: Event, es: seq<Event>)
    ensures QueuedByGo([e] + es) == (if e.GoDone? then e.ms else []) + QueuedByGo(es)
  {
    assert ([e] + es)[1..] == es;
  }

  lemma VerdictShift(f: Filter, ms: seq<Mutation>, g: Filter, ns: seq<Mutation>)
    requires g == EnqueueAll(f, ms).(buffered := g.buffered)
    ensures Verdict(g, ns) == Verdict(f, ms + ns)
  {
    QueueAllConcat(f.work, f.cfg.mutableBody, ms, ns);
  }

  lemma GoPendingStep(s: Stream, e: Event)
    requires GoPending(s) && Legal(s, e) && NoLaterHandler(s, [e]) && !e.StreamCompletes? && !e.GoFinishes?
    ensures GoPending(Step(s, e))
    ensures Step(s, e).f == EnqueueAll(s.f, if e.GoDone? then e.ms else []).(buffered := Step(s, e).f.buffered)
    ensures Returned(s, e).Some? ==> Returned(s, e) == Some(Verdict(s.f, []))
  {
    assert e in [e];
    match e
    case Delivered(d, _) => AdvanceSound(s, d);
    case GoDone(ms) => SingleSlots(s.f.work, s.f.cfg.mutableBody, ms);
    case _ =>
  }

  lemma GoFinishStep(s: Stream)
    requires GoPending(s) && s.scheduled > 0
    ensures var s' := GoFinish(s);
      && Settled(s') && s'.f.trace == s.f.trace + Outcome(s.f, true) && s'.f.cfg == s.f.cfg
      && (s'.f.work.stopped <==> s.f.work.localReply.Some?)
  {
    SameOutcome(s.f, s.f.(goCompleted := true, goStarted := false), true);
  }

  /** What is queued before an event and by it and the later ones is queued in one go. */
  lemma FiredLater(f: Filter, ms: seq<Mutation>, g: Filter, x: Firing, index: nat)
    requires g == EnqueueAll(f, ms).(buffered := g.buffered)
    ensures FiredFilter(g, x).work == FiredFilter(f, Firing(index, x.buffered, ms + x.callback)).work
    ensures Outcome(FiredFilter(g, x), true)
      == Outcome(FiredFilter(f, Firing(index, x.buffered, ms + x.callback)), true)
  {
    QueueAllConcat(f.work, f.cfg.mutableBody, ms, x.callback);
    SameOutcome(FiredFilter(g, x), FiredFilter(f, Firing(index, x.buffered, ms + x.callback)), true);
  }

  /**
   Flushed once, with ContinueRequest, at the finish; or not at all, with the finish still owed or the stream dead.
   */
  ghost predicate GoHandoff(s: Stream, es: seq<Event>, q: Filter)
    requires LegalRun(s, es)
  {
    match GoFinishing(s, es)
    case None =>
      && Run(s, es).f.trace == s.f.trace
      && (Run(s, es).f.streamDone || Run(s, es).running + Run(s, es).scheduled == 1)
      && HeldByReplyOnly(s, es, q, |es|)
    case Some(x) =>
      && x.index < |es| && es[x.index].GoFinishes?
      && HeldByReplyOnly(s, es, q, x.index + 1)
      && Run(s, es).f.trace == s.f.trace + Outcome(FiredFilter(q, x), true)
      && AllReturn(s, es, x.index + 1, if FiredFilter(q, x).work.localReply.Some? then Stop else Continue)
  }

  lemma {:induction false} GoRun(s: Stream, es: seq<Event>)
    requires GoPending(s) && LegalRun(s, es) && NoLaterHandler(s, es)
    ensures GoHandoff(s, es, s.f)
    decreases |es|
  {
    if es != [] {
      StatusesShift(s, es);
      if es[0].GoFinishes? {
        GoFinishesNow(s, es);
      } else if es[0].StreamCompletes? {
        DeadStreamIsSilent(Step(s, es[0]), es[1..]);
        DeadStaysDead(Step(s, es[0]), es[1..]);
      } else {
        GoPendingStep(s, es[0]);
        GoRun(Step(s, es[0]), es[1..]);
        GoFinishesLater(s, es);
      }
    }
  }

  lemma GoFinishesNow(s: Stream, es: seq<Event>)
    requires GoPending(s) && LegalRun(s, es) && NoLaterHandler(s, es) && es != [] && es[0].GoFinishes?
    ensures GoHandoff(s, es, s.f)
  {
    StatusesShift(s, es);
    GoFinishStep(s);
    SettledRun(Step(s, es[0]), es[1..]);
    assert s.f.(buffered := s.f.buffered) == s.f;
  }

  lemma GoFinishesLater(s: Stream, es: seq<Event>)
    requires LegalRun(s, es) && es != [] && !es[0].GoFinishes? && !es[0].StreamCompletes?
    requires Returned(s, es[0]).Some? ==> Returned(s, es[0]) == Some(Verdict(s.f, []))
    requires var s' := Step(s, es[0]);
      && s'.f == EnqueueAll(s.f, if es[0].GoDone? then es[0].ms else []).(buffered := s'.f.buffered)
      && GoHandoff(s', es[1..], s'.f)
    ensures GoHandoff(s, es, s.f)
  {
    StatusesShift(s, es);
    var s' := Step(s, es[0]);
    match GoFinishing(s', es[1..])
    case None => HeldShift(s, es, |es| - 1);
    case Some(x) =>
      HeldShift(s, es, x.index + 1);
      FiredLater(s.f, if es[0].GoDone? then es[0].ms else [], s'.f, x, x.index + 1);
  }

  /**
   The goroutine handoff over every run of a filter without a body handler. A handler that calls Go is stopped
   with nothing sent; what it and the goroutine queued is flushed exactly once, at the scheduled finish, with
   ContinueRequest unless a local response is queued; if the stream completes first nothing is ever applied, and
   as long as neither happens the finish is still owed. Until the finish request callbacks are held only by a local
   response queued so far, not by the goroutine; afterwards they return Stop exactly when one was sent.
   */
  lemma GoHandoffTheorem(cfg: Config, script: seq<Action>, endOfStream: bool, es: seq<Event>)
    requires !cfg.hasBodyHandler && LegalScript(NEW_WRITER, script) && GoAsync in script
    requires LegalRun(OnRequestHeaders(NewStream(cfg), script, [], endOfStream).0, es)
    ensures var (s, status) := OnRequestHeaders(NewStream(cfg), script, [], endOfStream);
      status == Stop && s.f.trace == [] && GoHandoff(s, es, Queued(NewStream(cfg), script))
  {
    GoHeaders(cfg, script, endOfStream);
    var s := OnRequestHeaders(NewStream(cfg), script, [], endOfStream).0;
    GoRun(s, es);
    var q := Queued(NewStream(cfg), script);
    if GoFinishing(s, es).Some? {
      SameFired(s.f, q, GoFinishing(s, es).value, GoFinishing(s, es).value);
    }
  }

  lemma {:induction false} GoIsCounted(script: seq<Action>)
    ensures GoAsync in script <==> GoStarts(script) > 0
  {
    if script != [] { GoIsCounted(script[1..]); }
  }

  lemma GoHeaders(cfg: Config, script: seq<Action>, endOfStream: bool)
    requires !cfg.hasBodyHandler && LegalScript(NEW_WRITER, script) && GoAsync in script
    ensures var (s, status) := OnRequestHeaders(NewStream(cfg), script, [], endOfStream);
      var q := Queued(NewStream(cfg), script);
      && GoPending(s) && status == Stop && s.f.trace == []
      && s.f.work == q.work && s.f.strip == q.strip && s.f.cfg == q.cfg
  {
    GoIsCounted(script);
    ScriptGo(NewStream(cfg), NEW_WRITER, script);
    ScriptOnlyQueues(NewStream(cfg), NEW_WRITER, script);
    SingleSlots(NO_WORK, cfg.mutableBody, ScriptMutations(NEW_WRITER, script));
  }
}
