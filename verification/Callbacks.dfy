/**
 The request callbacks of up/filter.go for every filter configuration, stated over the Writer calls their handlers
 make: what each returns, what reaches the handle, what stays queued, and where the body bytes go.
 */
module RequestCallbacks {
  import opened Common
  import opened FilterSpec
  import opened Handoff
  import opened HandoffRuns
  import opened HandoffVerdicts
  import opened HandoffGo
  import opened HandoffLimits

  // ---------------------------------------------------------------------------------------------
  // OnRequestHeaders

  /** The Writer calls of a header callback: the synthetic body call joins at end of stream unless the handler waits. */
  ghost function HeaderCalls(cfg: Config, script: seq<Action>, bodyScript: seq<Action>,
    endOfStream: bool): seq<Action> {
    if endOfStream && cfg.hasBodyHandler && (forall a | a in script :: !Waits(a)) then script + bodyScript else script
  }

  /** A body that the handler may replace is still to come. */
  predicate ReplaceableBodyFollows(cfg: Config, endOfStream: bool) {
    cfg.hasBodyHandler && cfg.bufferBody && cfg.mutableBody && !endOfStream
  }

  /**
   What a header callback on a new stream returns and leaves. It returns Continue exactly when none of its Writer
   calls leaves work outstanding, nothing rejects, and no body has to be buffered first. Without outstanding work
   everything queued is flushed once; with it nothing reaches the handle and everything stays queued. The framing
   strip is marked exactly for a replaceable body, and only a flush that sends no response takes the mark away.
   */
  ghost predicate HeadersResult(cfg: Config, full: seq<Action>, endOfStream: bool, s: Stream, status: Status)
    requires LegalScript(NEW_WRITER, full)
  {
    var reply := FirstReply(ScriptMutations(NEW_WRITER, full));
    var q := Queued(NewStream(cfg), full).(strip := ReplaceableBodyFollows(cfg, endOfStream));
    && (status == Continue <==>
          && (forall a | a in full :: !Waits(a))
          && reply.None?
          && !(cfg.hasBodyHandler && cfg.bufferBody && !endOfStream))
    && ((exists a | a in full :: Waits(a)) ==> s.f.trace == [] && s.f.work == q.work && s.f.strip == q.strip)
    && ((forall a | a in full :: !Waits(a)) ==>
          && s.f.trace == Outcome(q, false)
          && s.f.strip == (q.strip && reply.Some?)
          && (reply.None? ==> s.f.work == NO_WORK))
  }

  lemma HeadersCallback(cfg: Config, script: seq<Action>, bodyScript: seq<Action>, endOfStream: bool)
    requires LegalScript(NEW_WRITER, script)
    requires LegalScript(RunScript(NewStream(cfg), NEW_WRITER, script).1, bodyScript)
    ensures LegalScript(NEW_WRITER, HeaderCalls(cfg, script, bodyScript, endOfStream))
    ensures var (s, status) := OnRequestHeaders(NewStream(cfg), script, bodyScript, endOfStream);
      HeadersResult(cfg, HeaderCalls(cfg, script, bodyScript, endOfStream), endOfStream, s, status)
  {
    var s0 := NewStream(cfg);
    RunScriptConcat(s0, NEW_WRITER, script, bodyScript);
    var full := HeaderCalls(cfg, script, bodyScript, endOfStream);
    ScriptWaits(s0, NEW_WRITER, script);
    ScriptQueues(s0, NEW_WRITER, script);
    var (s1, w1) := RunScript(s0, NEW_WRITER, script);
    if full == script {
      MarkedEnd(cfg, script, endOfStream);
      if endOfStream && cfg.hasBodyHandler && (forall a | a in script :: !Waits(a)) {
        assert |script + bodyScript| == |script| + |bodyScript|;
        assert bodyScript == [];
      }
    } else {
      assert MarkStrip(s1, true) == s1;
      MarkedEnd(cfg, full, true);
    }
  }

  /** The end of a header callback once all its Writer calls were made. */
  lemma MarkedEnd(cfg: Config, full: seq<Action>, endOfStream: bool)
    requires LegalScript(NEW_WRITER, full)
    ensures var (s1, w) := RunScript(NewStream(cfg), NEW_WRITER, full);
      var (s, status) := HeadersEnd(MarkStrip(s1, endOfStream), w);
      HeadersResult(cfg, full, endOfStream, s, if cfg.hasBodyHandler && cfg.bufferBody && !endOfStream then Stop
        else status)
  {
    var s0 := NewStream(cfg);
    ScriptWaits(s0, NEW_WRITER, full);
    ScriptQueues(s0, NEW_WRITER, full);
    SingleSlots(NO_WORK, cfg.mutableBody, ScriptMutations(NEW_WRITER, full));
    var (s1, w) := RunScript(s0, NEW_WRITER, full);
    var s2 := MarkStrip(s1, endOfStream);
    var q := Queued(s0, full).(strip := ReplaceableBodyFollows(cfg, endOfStream));
    assert s2.f == q.(calloutState := s2.f.calloutState, calloutFn := s2.f.calloutFn,
                      goStarted := s2.f.goStarted, goCompleted := s2.f.goCompleted);
    if !Pauses(s2.f, w) && !s2.f.goStarted {
      FlushedEnd(s2, w);
      SameOutcome(s2.f, q, false);
      assert [] + Outcome(q, false) == Outcome(q, false);
    }
  }

  lemma FlushedEnd(s: Stream, w: Writer)
    requires !Pauses(s.f, w) && !s.f.goStarted && (s.f.work.stopped <==> s.f.work.localReply.Some?)
    ensures var (s', status) := HeadersEnd(s, w);
      && s'.f.trace == s.f.trace + Outcome(s.f, false)
      && s'.f.strip == (s.f.strip && s.f.work.localReply.Some?)
      && (s.f.work.localReply.None? ==> s'.f.work == NO_WORK)
      && status == if s.f.work.localReply.Some? then Stop else Continue
  {
    SameOutcome(s.f, FlushCompleted(s.f, w), false);
  }

  /** The goroutine handoff for every filter: from the header handler, or the synthetic body call at end of stream. */
  lemma GoHandoffAnyFilter(cfg: Config, script: seq<Action>, bodyScript: seq<Action>, endOfStream: bool, es: seq<Event>)
    requires LegalScript(NEW_WRITER, script)
    requires LegalScript(RunScript(NewStream(cfg), NEW_WRITER, script).1, bodyScript)
    requires GoAsync in HeaderCalls(cfg, script, bodyScript, endOfStream)
    requires LegalRun(OnRequestHeaders(NewStream(cfg), script, bodyScript, endOfStream).0, es)
    requires cfg.hasBodyHandler ==> forall e | e in es :: !e.Body?
    ensures LegalScript(NEW_WRITER, HeaderCalls(cfg, script, bodyScript, endOfStream))
    ensures var (s, status) := OnRequestHeaders(NewStream(cfg), script, bodyScript, endOfStream);
      var q := Queued(NewStream(cfg), HeaderCalls(cfg, script, bodyScript, endOfStream));
      && status == Stop && s.f.trace == []
      && GoHandoff(s, es, q.(strip := ReplaceableBodyFollows(cfg, endOfStream)))
  {
    HeadersCallback(cfg, script, bodyScript, endOfStream);
    var full := HeaderCalls(cfg, script, bodyScript, endOfStream);
    assert Waits(GoAsync);
    GoStays(cfg, script, bodyScript, endOfStream);
    var s := OnRequestHeaders(NewStream(cfg), script, bodyScript, endOfStream).0;
    GoRun(s, es);
    SameGoHandoff(s, es, s.f, Queued(NewStream(cfg), full).(strip := ReplaceableBodyFollows(cfg, endOfStream)));
  }

  lemma SameGoHandoff(s: Stream, es: seq<Event>, f: Filter, q: Filter)
    requires LegalRun(s, es) && GoHandoff(s, es, f) && f.work == q.work && f.strip == q.strip && f.cfg == q.cfg
    ensures GoHandoff(s, es, q)
  {
    match GoFinishing(s, es)
    case None => SameHeld(s, es, f, q, |es|);
    case Some(x) =>
      SameHeld(s, es, f, q, x.index + 1);
      SameFired(f, q, x, x);
  }

  lemma SameHeld(s: Stream, es: seq<Event>, f: Filter, q: Filter, upTo: nat)
    requires LegalRun(s, es) && HeldByReplyOnly(s, es, f, upTo) && f.work == q.work && f.cfg == q.cfg
    ensures HeldByReplyOnly(s, es, q, upTo)
  {
    forall ms ensures Verdict(f, ms) == Verdict(q, ms) {}
  }

  lemma GoStays(cfg: Config, script: seq<Action>, bodyScript: seq<Action>, endOfStream: bool)
    requires LegalScript(NEW_WRITER, script)
    requires LegalScript(RunScript(NewStream(cfg), NEW_WRITER, script).1, bodyScript)
    requires GoAsync in HeaderCalls(cfg, script, bodyScript, endOfStream)
    ensures var s := OnRequestHeaders(NewStream(cfg), script, bodyScript, endOfStream).0;
      GoPending(s) && s.f.cfg == cfg
  {
    var s0 := NewStream(cfg);
    RunScriptConcat(s0, NEW_WRITER, script, bodyScript);
    var full := HeaderCalls(cfg, script, bodyScript, endOfStream);
    var (s1, w1) := RunScript(s0, NEW_WRITER, script);
    ScriptWaits(s0, NEW_WRITER, script);
    assert Waits(GoAsync);
    ScriptQueues(s0, NEW_WRITER, script);
    if full == script {
      GoAfter(cfg, script, MarkStrip(s1, endOfStream), w1);
    } else {
      assert MarkStrip(s1, true) == s1;
      ScriptQueues(s0, NEW_WRITER, full);
      GoAfter(cfg, full, RunScript(s0, NEW_WRITER, full).0, RunScript(s0, NEW_WRITER, full).1);
    }
  }

  lemma GoAfter(cfg: Config, full: seq<Action>, s: Stream, w: Writer)
    requires LegalScript(NEW_WRITER, full) && GoAsync in full
    requires var (s1, w1) := RunScript(NewStream(cfg), NEW_WRITER, full);
      w == w1 && s == s1.(f := s1.f.(strip := s.f.strip))
    ensures GoPending(s) && HeadersEnd(s, w).0 == s && !Pauses(s.f, w) && s.f.goStarted
  {
    GoIsCounted(full);
    ScriptGo(NewStream(cfg), NEW_WRITER, full);
    ScriptOnlyQueues(NewStream(cfg), NEW_WRITER, full);
    SingleSlots(NO_WORK, cfg.mutableBody, ScriptMutations(NEW_WRITER, full));
  }

  // ---------------------------------------------------------------------------------------------
  // OnRequestBody

  /** A frame of a buffered body before the last one: held, with nothing else changed. */
  lemma HeldFrame(s: Stream, frame: Bytes, script: seq<Action>)
    requires s.f.cfg.hasBodyHandler && s.f.cfg.bufferBody && LegalScript(NEW_WRITER, script)
    ensures var (s', status, forwarded) := OnRequestBody(s, frame, false, script);
      && status == Stop && forwarded == []
      && s' == s.(f := s.f.(buffered := Some(Contents(s.f.buffered) + frame)))
  {
  }

  function Concat(frames: seq<Bytes>): Bytes {
    if frames == [] then [] else frames[0] + Concat(frames[1..])
  }

  function Frames(frames: seq<Bytes>): seq<Event> {
    seq(|frames|, i requires 0 <= i < |frames| => Body(frames[i], false, []))
  }

  /** All frames of a buffered body before the last one: Envoy's buffer is their concatenation, in order. */
  lemma {:induction false} HeldFrames(s: Stream, frames: seq<Bytes>)
    requires s.f.cfg.hasBodyHandler && s.f.cfg.bufferBody && !s.f.streamDone && frames != []
    ensures LegalRun(s, Frames(frames))
    ensures Run(s, Frames(frames)) == s.(f := s.f.(buffered := Some(Contents(s.f.buffered) + Concat(frames))))
    ensures NeverReleased(s, Frames(frames), |frames|)
    decreases |frames|
  {
    var es := Frames(frames);
    HeldFrame(s, frames[0], []);
    var s' := Step(s, es[0]);
    assert es[1..] == Frames(frames[1..]);
    var held := Contents(s.f.buffered);
    assert (held + frames[0]) + Concat(frames[1..]) == held + Concat(frames);
    if |frames| == 1 {
      assert es[1..] == [];
      assert Concat(frames) == frames[0] + [] == frames[0];
      assert Run(s', []) == s';
    } else {
      HeldFrames(s', frames[1..]);
    }
    assert Legal(s, es[0]) && LegalRun(s', es[1..]);
    StatusesShift(s, es);
  }

  /**
   The handler of a buffered body sees the whole body in one piece: on the empty last frame, or when there was only
   one frame.
   */
  lemma HandlerSeesWholeBody(s: Stream, frames: seq<Bytes>, last: Bytes)
    requires s.f.cfg.hasBodyHandler && s.f.cfg.bufferBody && !s.f.streamDone && Contents(s.f.buffered) == []
    requires last == [] || Concat(frames) == []
    ensures LegalRun(s, Frames(frames))
    ensures BodyData(Run(s, Frames(frames)).f, last) == Concat(frames) + last
  {
    if frames == [] {
      assert Frames(frames) == [];
    } else {
      HeldFrames(s, frames);
      assert [] + Concat(frames) == Concat(frames);
    }
    assert [] + last == last && Concat(frames) + [] == Concat(frames);
  }

  /** The goroutine handoff when the body handler calls Go. */
  lemma GoBodyHandoff(s: Stream, frame: Bytes, endOfStream: bool, script: seq<Action>, es: seq<Event>)
    requires RunsBody(s, endOfStream) && Ready(s) && LegalScript(NEW_WRITER, script) && GoAsync in script
    requires LegalRun(OnRequestBody(s, frame, endOfStream, script).0, es) && forall e | e in es :: !e.Body?
    ensures var (s', status, forwarded) := OnRequestBody(s, frame, endOfStream, script);
      && status == Stop && forwarded == [] && s'.f.trace == s.f.trace
      && s'.f.buffered == Some(Contents(s.f.buffered) + frame)
      && GoHandoff(s', es, Queued(s, script))
  {
    GoBody(s, frame, endOfStream, script);
    var s' := OnRequestBody(s, frame, endOfStream, script).0;
    GoRun(s', es);
    SameGoHandoff(s', es, s'.f, Queued(s, script));
  }

  lemma GoBody(s: Stream, frame: Bytes, endOfStream: bool, script: seq<Action>)
    requires RunsBody(s, endOfStream) && Ready(s) && LegalScript(NEW_WRITER, script) && GoAsync in script
    ensures var (s', status, forwarded) := OnRequestBody(s, frame, endOfStream, script);
      var q := Queued(s, script);
      && GoPending(s') && status == Stop && forwarded == [] && s'.f.trace == s.f.trace
      && s'.f.buffered == Some(Contents(s.f.buffered) + frame)
      && s'.f.work == q.work && s'.f.strip == q.strip && s'.f.cfg == q.cfg
  {
    GoIsCounted(script);
    ScriptGo(s, NEW_WRITER, script);
    ScriptOnlyQueues(s, NEW_WRITER, script);
    SingleSlots(s.f.work, s.f.cfg.mutableBody, ScriptMutations(NEW_WRITER, script));
  }

  // ---------------------------------------------------------------------------------------------
  // Streamed bodies

  /** One frame of a streamed body with what its handler does. */
  datatype Frame = Frame(bytes: Bytes, last: bool, script: seq<Action>)

  /** A handler that neither waits nor rejects. */
  ghost predicate Plain(script: seq<Action>) {
    && LegalScript(NEW_WRITER, script) && GoAsync !in script
    && (forall a | a in script :: !Waits(a)) && FirstReply(ScriptMutations(NEW_WRITER, script)).None?
  }

  function BodyEvents(frames: seq<Frame>): seq<Event> {
    seq(|frames|, i requires 0 <= i < |frames| => Body(frames[i].bytes, frames[i].last, frames[i].script))
  }

  /** Everything the handlers of a streamed body queue, applied frame by frame. */
  ghost function StreamedEffects(cfg: Config, frames: seq<Frame>): seq<Effect>
    requires forall f | f in frames :: Plain(f.script)
  {
    if frames == [] then []
    else
      assert Plain(frames[0].script);
      Applied(NewFilter(cfg), ScriptMutations(NEW_WRITER, frames[0].script)) + StreamedEffects(cfg, frames[1..])
  }

  /**
   A streamed body whose handlers neither wait nor reject: every frame is let through with its own bytes, and by then
   its mutations are on the handle, once and in order.
   */
  lemma {:induction false} StreamedBody(s: Stream, frames: seq<Frame>)
    requires s.f.cfg.hasBodyHandler && !s.f.cfg.bufferBody && Ready(s)
    requires s.f.work == NO_WORK && !s.f.strip && s.f.buffered.None?
    requires forall f | f in frames :: Plain(f.script)
    ensures LegalRun(s, BodyEvents(frames))
    ensures Run(s, BodyEvents(frames)).f.trace == s.f.trace + StreamedEffects(s.f.cfg, frames)
    ensures AllReturn(s, BodyEvents(frames), 0, Continue)
    ensures FrameBytes(s, BodyEvents(frames)) == BytesOf(frames)
    decreases |frames|
  {
    if frames == [] {
      assert s.f.trace + [] == s.f.trace;
    } else {
      var f, es := frames[0], BodyEvents(frames);
      assert Plain(f.script);
      StreamedFrame(s, f);
      assert es[0] == Body(f.bytes, f.last, f.script) && es[1..] == BodyEvents(frames[1..]);
      StreamedBody(Step(s, es[0]), frames[1..]);
      StreamedMore(s, f, frames[1..], es, Applied(NewFilter(s.f.cfg), ScriptMutations(NEW_WRITER, f.script)),
                   StreamedEffects(s.f.cfg, frames[1..]));
    }
  }

  function BytesOf(frames: seq<Frame>): seq<Bytes> {
    if frames == [] then [] else [frames[0].bytes] + BytesOf(frames[1..])
  }

  /** The bytes let through on each frame. */
  ghost function FrameBytes(s: Stream, es: seq<Event>): seq<Bytes>
    requires LegalRun(s, es) && forall e | e in es :: e.Body?
    decreases |es|
  {
    if es == [] then []
    else
      assert es[0] in es;
      [OnRequestBody(s, es[0].frame, es[0].endOfStream, es[0].script).2] + FrameBytes(Step(s, es[0]), es[1..])
  }

  /** One more frame at the front of a streamed body. */
  lemma StreamedMore(s: Stream, f: Frame, rest: seq<Frame>, es: seq<Event>, first: seq<Effect>, later: seq<Effect>)
    requires es != [] && es[0] == Body(f.bytes, f.last, f.script) && Legal(s, es[0]) && forall e | e in es :: e.Body?
    requires Returned(s, es[0]) == Some(Continue)
    requires OnRequestBody(s, f.bytes, f.last, f.script).2 == f.bytes
    requires var s' := Step(s, es[0]);
      && s'.f.trace == s.f.trace + first
      && LegalRun(s', es[1..]) && AllReturn(s', es[1..], 0, Continue)
      && Run(s', es[1..]).f.trace == s'.f.trace + later && FrameBytes(s', es[1..]) == BytesOf(rest)
    ensures LegalRun(s, es) && AllReturn(s, es, 0, Continue)
    ensures Run(s, es).f.trace == s.f.trace + (first + later)
    ensures FrameBytes(s, es) == [f.bytes] + BytesOf(rest)
  {
    StatusesShift(s, es);
    assert (s.f.trace + first) + later == s.f.trace + (first + later);
  }

  lemma StreamedFrame(s: Stream, f: Frame)
    requires s.f.cfg.hasBodyHandler && !s.f.cfg.bufferBody && Ready(s) && Plain(f.script)
    requires s.f.work == NO_WORK && !s.f.strip && s.f.buffered.None?
    ensures var (s', status, forwarded) := OnRequestBody(s, f.bytes, f.last, f.script);
      && status == Continue && forwarded == f.bytes
      && Ready(s') && s'.f.work == NO_WORK && !s'.f.strip && s'.f.buffered.None? && s'.f.cfg == s.f.cfg
      && s'.f.trace == s.f.trace + Applied(NewFilter(s.f.cfg), ScriptMutations(NEW_WRITER, f.script))
  {
    NotPending(s, f.script);
    BodyConcludes(s, f.bytes, f.last, f.script);
    StreamedOutcome(s.f, ScriptMutations(NEW_WRITER, f.script));
    StreamedForward(s, f);
    BodyKeepsGo(s, f.bytes, f.last, f.script);
    ScriptGo(s, NEW_WRITER, f.script);
  }

  lemma NotPending(s: Stream, script: seq<Action>)
    requires Ready(s) && Plain(script)
    ensures !LeavesPending(s, script) && Queued(s, script).work.localReply.None?
  {
    AfterScript(s, script);
    ScriptWaits(s, NEW_WRITER, script);
    SingleSlots(s.f.work, s.f.cfg.mutableBody, ScriptMutations(NEW_WRITER, script));
  }

  lemma StreamedOutcome(f: Filter, ms: seq<Mutation>)
    requires f.work == NO_WORK && !f.strip && f.buffered.None? && !f.cfg.bufferBody && FirstReply(ms).None?
    ensures BodyOutcome(EnqueueAll(f, ms), []) == Applied(NewFilter(f.cfg), ms)
    ensures forall data :: BodyOutcome(EnqueueAll(f, ms), data) == BodyOutcome(EnqueueAll(f, ms), [])
  {
    QueuedOutcome(f, ms);
    assert Applied(f, ms) + [] == Applied(f, ms);
    assert Applied(f, ms) == Applied(NewFilter(f.cfg), ms);
  }

  lemma StreamedForward(s: Stream, f: Frame)
    requires s.f.cfg.hasBodyHandler && !s.f.cfg.bufferBody && Ready(s) && Plain(f.script) && s.f.buffered.None?
    ensures OnRequestBody(s, f.bytes, f.last, f.script).2 == f.bytes
  {
    ScriptWaits(s, NEW_WRITER, f.script);
    ScriptQueues(s, NEW_WRITER, f.script);
    SingleSlots(s.f.work, s.f.cfg.mutableBody, ScriptMutations(NEW_WRITER, f.script));
    var (s1, w) := RunScript(s, NEW_WRITER, f.script);
    ForwardedFrame(s1, w, f.bytes, BodyData(s.f, f.bytes));
  }

  lemma ForwardedFrame(s: Stream, w: Writer, frame: Bytes, data: Bytes)
    requires !s.f.cfg.bufferBody && s.f.buffered.None? && s.f.work.localReply.None?
    ensures BodyEnd(s, w, frame, data).2 == frame
  {
    assert [] + frame == frame;
  }

  // ---------------------------------------------------------------------------------------------
  // Where the bytes go without a body handler

  /** The body bytes an event sends upstream: a released frame with the buffer, or the buffer on ContinueRequest. */
  ghost function SentBy(s: Stream, e: Event): Bytes
    requires Legal(s, e)
  {
    if e.Body? then OnRequestBody(s, e.frame, e.endOfStream, e.script).2
    else if Resumed(s, e) > 0 then Contents(s.f.buffered)
    else []
  }

  ghost function Sent(s: Stream, es: seq<Event>): Bytes
    requires LegalRun(s, es)
    decreases |es|
  {
    if es == [] then [] else SentBy(s, es[0]) + Sent(Step(s, es[0]), es[1..])
  }

  function Received(es: seq<Event>): Bytes {
    if es == [] then [] else (if es[0].Body? then es[0].frame else []) + Received(es[1..])
  }

  lemma FlushReleases(f: Filter)
    requires f.work.replacement.None?
    ensures var f' := Flush(f, true);
      && f'.work.replacement.None?
      && Contents(f'.buffered) == (if f.work.localReply.None? then [] else Contents(f.buffered))
  {
  }

  lemma FinishReleases(f: Filter, callback: seq<Mutation>)
    requires f.work.replacement.None? && !f.cfg.mutableBody
    ensures var f' := FinishCallout(f, callback);
      && f'.work.replacement.None?
      && Contents(f'.buffered) == (if Resumes(f'.trace) > Resumes(f.trace) then [] else Contents(f.buffered))
  {
    SingleSlots(f.work, false, callback);
    var f1 := EnqueueAll(f, callback).(calloutState := Flushed);
    FlushReleases(f1);
    FlushResumes(f1, true);
  }

  lemma BytesStep(s: Stream, e: Event)
    requires !s.f.cfg.hasBodyHandler && !s.f.cfg.mutableBody && s.f.work.replacement.None? && Legal(s, e)
    ensures var s' := Step(s, e);
      && s'.f.cfg == s.f.cfg && s'.f.work.replacement.None?
      && SentBy(s, e) + Contents(s'.f.buffered) == Contents(s.f.buffered) + (if e.Body? then e.frame else [])
  {
    match e
    case Body(frame, endOfStream, script) => BodyBytes(s, frame, endOfStream, script);
    case Delivered(d, callback) => DeliveryBytes(s, d, callback);
    case GoDone(ms) => SingleSlots(s.f.work, false, ms);
    case GoFinishes => FinishBytes(s);
    case _ =>
  }

  lemma BodyBytes(s: Stream, frame: Bytes, endOfStream: bool, script: seq<Action>)
    requires !s.f.cfg.hasBodyHandler && LegalScript(NEW_WRITER, script)
    ensures var (s', _, sent) := OnRequestBody(s, frame, endOfStream, script);
      && s'.f.cfg == s.f.cfg && s'.f.work == s.f.work
      && sent + Contents(s'.f.buffered) == Contents(s.f.buffered) + frame
  {
    assert [] + (Contents(s.f.buffered) + frame) == Contents(s.f.buffered) + frame;
  }

  lemma DeliveryBytes(s: Stream, d: Delivery, callback: seq<Mutation>)
    requires !s.f.cfg.mutableBody && s.f.work.replacement.None? && LegalDelivery(s, d)
    ensures var s' := Deliver(s, d, callback);
      var sent := if Resumes(s'.f.trace) - Resumes(s.f.trace) > 0 then Contents(s.f.buffered) else [];
      && s'.f.cfg == s.f.cfg && s'.f.work.replacement.None?
      && sent + Contents(s'.f.buffered) == Contents(s.f.buffered) + []
  {
    var f := s.f.(calloutFn := if d.HttpDone? then false else s.f.calloutFn);
    FinishReleases(f, callback);
    assert Deliver(s, d, callback).f == s.f || Deliver(s, d, callback).f == FinishCallout(f, callback);
  }

  lemma FinishBytes(s: Stream)
    requires s.f.work.replacement.None? && s.scheduled > 0
    ensures var s' := GoFinish(s);
      var sent := if Resumes(s'.f.trace) - Resumes(s.f.trace) > 0 then Contents(s.f.buffered) else [];
      && s'.f.cfg == s.f.cfg && s'.f.work.replacement.None?
      && sent + Contents(s'.f.buffered) == Contents(s.f.buffered) + []
  {
    var f1 := s.f.(goCompleted := true, goStarted := false);
    FlushReleases(f1);
    FlushResumes(f1, true);
  }

  /**
   Without a body handler, over every run: the bytes sent upstream and then the bytes still held are the bytes
   received, each once and in order.
   */
  lemma {:induction false} BytesConserved(s: Stream, es: seq<Event>)
    requires !s.f.cfg.hasBodyHandler && !s.f.cfg.mutableBody && s.f.work.replacement.None? && LegalRun(s, es)
    ensures Sent(s, es) + Contents(Run(s, es).f.buffered) == Contents(s.f.buffered) + Received(es)
    decreases |es|
  {
    if es == [] {
      assert [] + Contents(s.f.buffered) == Contents(s.f.buffered) + [];
    } else {
      BytesStep(s, es[0]);
      var s', rest := Step(s, es[0]), es[1..];
      BytesConserved(s', rest);
      Shuffle(SentBy(s, es[0]), Sent(s', rest), Contents(Run(s', rest).f.buffered), Contents(s'.f.buffered),
              Contents(s.f.buffered), if es[0].Body? then es[0].frame else [], Received(rest));
    }
  }

  lemma Shuffle(a: Bytes, b: Bytes, c: Bytes, mid: Bytes, start: Bytes, first: Bytes, rest: Bytes)
    requires a + mid == start + first && b + c == mid + rest
    ensures (a + b) + c == start + (first + rest)
  {
    assert (a + b) + c == a + (b + c);
    assert a + (mid + rest) == (a + mid) + rest;
    assert (start + first) + rest == start + (first + rest);
  }
}
