/**
 Consequences of the handoff theorems counted on the trace, and the header callback that ends the stream while a
 body handler is registered.
 */
module HandoffVerdicts {
  import opened Common
  import opened FilterSpec
  import opened Handoff
  import opened HandoffRuns

  // ---------------------------------------------------------------------------------------------
  // Counting on the trace

  function Replies(trace: seq<Effect>): seq<LocalResponse> {
    if trace == [] then []
    else (if trace[0].ResponseSent? then [trace[0].reply] else []) + Replies(trace[1..])
  }

  function Resumes(trace: seq<Effect>): nat {
    if trace == [] then 0 else (if trace[0].RequestContinued? then 1 else 0) + Resumes(trace[1..])
  }

  lemma {:induction false} NothingToCount(trace: seq<Effect>, rest: seq<Effect>)
    requires forall e | e in trace :: !e.ResponseSent? && !e.RequestContinued?
    ensures Replies(trace + rest) == Replies(rest) && Resumes(trace + rest) == Resumes(rest)
  {
    if trace == [] {
      assert trace + rest == rest;
    } else {
      assert (trace + rest)[1..] == trace[1..] + rest;
      NothingToCount(trace[1..], rest);
    }
  }

  /** One flush sends the queued local response and nothing else, or resumes the request if told to. */
  lemma OutcomeCounts(f: Filter, continueReq: bool)
    ensures Replies(Outcome(f, continueReq)) == (if f.work.localReply.Some? then [f.work.localReply.value] else [])
    ensures Resumes(Outcome(f, continueReq)) == if continueReq && f.work.localReply.None? then 1 else 0
  {
    if f.work.localReply.None? {
      CountQueued(QueueEffects(f.work.queues, f.strip) + ReplacementEffects(f), continueReq);
    }
  }

  lemma CountQueued(queued: seq<Effect>, continueReq: bool)
    requires forall e | e in queued :: !e.ResponseSent? && !e.RequestContinued?
    ensures var all := queued + (if continueReq then [RequestContinued] else []);
      Replies(all) == [] && Resumes(all) == if continueReq then 1 else 0
  {
    NothingToCount(queued, if continueReq then [RequestContinued] else []);
    assert Resumes([RequestContinued]) == 1;
  }

  /** The reply that wins when a callback runs after the handler. */
  lemma ReplyOfBoth(f: Filter, ms: seq<Mutation>, ns: seq<Mutation>)
    requires f.work.localReply.None?
    ensures EnqueueAll(EnqueueAll(f, ms), ns).work.localReply == FirstReply(ms + ns)
  {
    QueueAllConcat(f.work, f.cfg.mutableBody, ms, ns);
    SingleSlots(f.work, f.cfg.mutableBody, ms + ns);
  }

  /**
   A handler that leaves no callback pending, counted over the whole run without a body handler: if it, or a
   callback Envoy ran inside it, rejects, the trace is exactly the first local response and no request callback
   ever returns Continue. Otherwise no response is sent. ContinueRequest is never called.
   */
  lemma ImmediateVerdict(cfg: Config, script: seq<Action>, endOfStream: bool, es: seq<Event>)
    requires !cfg.hasBodyHandler && LegalScript(NEW_WRITER, script) && GoAsync !in script
    requires LegalRun(OnRequestHeaders(NewStream(cfg), script, [], endOfStream).0, es)
    requires !LeavesPending(NewStream(cfg), script)
    ensures var (s, status) := OnRequestHeaders(NewStream(cfg), script, [], endOfStream);
      var trace := Run(s, es).f.trace;
      Resumes(trace) == 0 &&
      match FirstReply(ScriptMutations(NEW_WRITER, script))
      case Some(r) => trace == [ResponseSent(r)] && status == Stop && AllReturn(s, es, 0, Stop)
      case None => Replies(trace) == [] && status == Continue && AllReturn(s, es, 0, Continue)
  {
    HandoffTheorem(cfg, script, endOfStream, es);
    SingleSlots(NO_WORK, cfg.mutableBody, ScriptMutations(NEW_WRITER, script));
    OutcomeCounts(Queued(NewStream(cfg), script), false);
  }

  /**
   A paused callout whose callback ran at event x.index on a live stream: if the handler or the callback
   rejects, the trace is exactly the first local response, ContinueRequest is never called and no request
   callback ever returns Continue. Otherwise no response is sent, ContinueRequest is called exactly once, and
   request callbacks return Continue after the callback ran and not before.
   */
  lemma PausedVerdict(cfg: Config, script: seq<Action>, endOfStream: bool, es: seq<Event>, x: Firing)
    requires !cfg.hasBodyHandler && LegalScript(NEW_WRITER, script) && GoAsync !in script
    requires LegalRun(OnRequestHeaders(NewStream(cfg), script, [], endOfStream).0, es)
    requires LeavesPending(NewStream(cfg), script)
    requires FirstFiring(OnRequestHeaders(NewStream(cfg), script, [], endOfStream).0, es) == Some(x)
    ensures var s := OnRequestHeaders(NewStream(cfg), script, [], endOfStream).0;
      var trace := Run(s, es).f.trace;
      match FirstReply(ScriptMutations(NEW_WRITER, script) + x.callback)
      case Some(r) => trace == [ResponseSent(r)] && Resumes(trace) == 0 && NeverReleased(s, es, |es|)
      case None =>
        && Replies(trace) == [] && Resumes(trace) == 1
        && NeverReleased(s, es, x.index + 1) && AllReturn(s, es, x.index + 1, Continue)
  {
    HandoffTheorem(cfg, script, endOfStream, es);
    var s := OnRequestHeaders(NewStream(cfg), script, [], endOfStream).0;
    var q := Queued(NewStream(cfg), script);
    ReplyOfBoth(NewFilter(cfg).(buffered := x.buffered), ScriptMutations(NEW_WRITER, script), x.callback);
    FiredVerdict(s, es, q, x, FirstReply(ScriptMutations(NEW_WRITER, script) + x.callback));
  }

  lemma FiredVerdict(s: Stream, es: seq<Event>, q: Filter, x: Firing, reply: Option<LocalResponse>)
    requires LegalRun(s, es) && s.f.trace == [] && FlushesOnceAt(s, es, q, x)
    requires FiredFilter(q, x).work.localReply == reply
    ensures var trace := Run(s, es).f.trace;
      match reply
      case Some(r) => trace == [ResponseSent(r)] && Resumes(trace) == 0 && NeverReleased(s, es, |es|)
      case None =>
        && Replies(trace) == [] && Resumes(trace) == 1
        && NeverReleased(s, es, x.index + 1) && AllReturn(s, es, x.index + 1, Continue)
  {
    OutcomeCounts(FiredFilter(q, x), true);
    assert [] + Outcome(FiredFilter(q, x), true) == Outcome(FiredFilter(q, x), true);
  }

  // ---------------------------------------------------------------------------------------------
  // Header callback at end of stream with a body handler

  lemma {:induction false} RunScriptConcat(s: Stream, w: Writer, a: seq<Action>, b: seq<Action>)
    requires LegalScript(w, a) && LegalScript(RunScript(s, w, a).1, b)
    ensures LegalScript(w, a + b)
    ensures RunScript(s, w, a + b) == RunScript(RunScript(s, w, a).0, RunScript(s, w, a).1, b)
    decreases |a|
  {
    if a == [] {
      assert a + b == b;
    } else {
      assert (a + b)[1..] == a[1..] + b;
      match a[0]
      case Mutate(m) => RunScriptConcat(s.(f := EnqueueAll(s.f, [m])), w, a[1..], b);
      case GoAsync => RunScriptConcat(StartGo(s), w.(goStarted := true), a[1..], b);
      case Callout(st, callback) =>
        RunScriptConcat(StartCallout(s, st, callback), w.(calloutStarted := Accepted(st)), a[1..], b);
    }
  }

  /** The Writer calls made by the header callback: the synthetic body call joins unless the handler paused. */
  ghost function EndScript(cfg: Config, script: seq<Action>, bodyScript: seq<Action>): seq<Action>
    requires LegalScript(NEW_WRITER, script)
  {
    if LeavesPending(NewStream(cfg), script) then script else script + bodyScript
  }

  /** What the header callback at end of stream leaves, in terms of every Writer call it made. */
  ghost predicate EndHandoff(s: Stream, status: Status, full: seq<Action>, s0: Stream, es: seq<Event>)
    requires LegalScript(NEW_WRITER, full) && LegalRun(s, es)
  {
    var q := Queued(s0, full);
    if LeavesPending(s0, full) then
      status == Stop && s.f.trace == [] && PausedHandoff(s, es, q)
    else
      && status == (if q.work.localReply.Some? then Stop else Continue)
      && s.f.trace == Outcome(q, false) && Run(s, es).f.trace == s.f.trace
      && AllReturn(s, es, 0, status)
  }

  /** The handoff when the request has no body: a body handler's synthetic call shares the header callback's Writer. */
  lemma EndOfStreamHandoffTheorem(cfg: Config, script: seq<Action>, bodyScript: seq<Action>, es: seq<Event>)
    requires cfg.hasBodyHandler && LegalScript(NEW_WRITER, script) && GoAsync !in script && GoAsync !in bodyScript
    requires LegalScript(RunScript(NewStream(cfg), NEW_WRITER, script).1, bodyScript)
    requires LegalRun(OnRequestHeaders(NewStream(cfg), script, bodyScript, true).0, es)
    requires forall e | e in es :: !e.Body?
    ensures LegalScript(NEW_WRITER, EndScript(cfg, script, bodyScript))
    ensures var (s, status) := OnRequestHeaders(NewStream(cfg), script, bodyScript, true);
      EndHandoff(s, status, EndScript(cfg, script, bodyScript), NewStream(cfg), es)
  {
    RunScriptConcat(NewStream(cfg), NEW_WRITER, script, bodyScript);
    assert GoAsync !in script + bodyScript;
    EndOfHeaders(cfg, script, bodyScript);
    EndCallback(NewStream(cfg), EndScript(cfg, script, bodyScript), es,
      OnRequestHeaders(NewStream(cfg), script, bodyScript, true));
  }

  /** At end of stream the header callback is one handler run over all its Writer calls. */
  lemma EndOfHeaders(cfg: Config, script: seq<Action>, bodyScript: seq<Action>)
    requires cfg.hasBodyHandler && LegalScript(NEW_WRITER, script) && GoAsync !in script
    requires LegalScript(RunScript(NewStream(cfg), NEW_WRITER, script).1, bodyScript)
    requires LegalScript(NEW_WRITER, EndScript(cfg, script, bodyScript))
    ensures var (s1, w) := RunScript(NewStream(cfg), NEW_WRITER, EndScript(cfg, script, bodyScript));
      OnRequestHeaders(NewStream(cfg), script, bodyScript, true) == HeadersEnd(s1, w)
  {
    RunScriptConcat(NewStream(cfg), NEW_WRITER, script, bodyScript);
    AfterScript(NewStream(cfg), script);
    var (s0, w0) := RunScript(NewStream(cfg), NEW_WRITER, script);
    assert MarkStrip(s0, true) == s0;
    assert Pauses(s0.f, w0) <==> LeavesPending(NewStream(cfg), script);
  }

  lemma EndCallback(s0: Stream, full: seq<Action>, es: seq<Event>, res: (Stream, Status))
    requires Ready(s0) && s0.f.trace == [] && LegalScript(NEW_WRITER, full) && GoAsync !in full
    requires res == HeadersEnd(RunScript(s0, NEW_WRITER, full).0, RunScript(s0, NEW_WRITER, full).1)
    requires LegalRun(res.0, es) && forall e | e in es :: !e.Body?
    ensures EndHandoff(res.0, res.1, full, s0, es)
  {
    AfterScript(s0, full);
    var (s1, w) := RunScript(s0, NEW_WRITER, full);
    var q := Queued(s0, full);
    if w.calloutStarted && Armed(s1) {
      PausedEnd(s1, w, q);
      PausedFrom(res.0, es, q);
    } else {
      ConcludedEnd(s1, w, q);
      SettledRun(res.0, es);
    }
  }
}
