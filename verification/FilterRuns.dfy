/**
 Whole requests on the filter object: Envoy's header callback and then any legal list of later events, each handed to
 the object's own method. The handoff theorems become facts about the object's trace and return values.
 */
module FilterRuns {
  import opened Common
  import opened FilterSpec
  import opened Handoff
  import opened HandoffRuns
  import opened HandoffVerdicts
  import opened HandoffGo
  import Object = FilterObject

  /** One event, dispatched as Envoy and the Go runtime do. */
  method Dispatch(f: Object.Filter, e: Event) returns (r: Option<Status>)
    requires Legal(f.State(), e)
    modifies f
    ensures f.State() == Step(old(f.State()), e) && r == Returned(old(f.State()), e)
  {
    r := None;
    match e {
      case Body(frame, endOfStream, script) =>
        var status, forwarded := f.OnRequestBody(frame, endOfStream, script);
        r := Some(status);
      case Trailers =>
        var status := f.OnRequestTrailers();
        r := Some(status);
      case Delivered(d, callback) => f.Deliver(d, callback);
      case GoDone(ms) => f.GoReturns(ms);
      case GoFinishes => f.GoFinish();
      case StreamCompletes => f.OnStreamComplete();
    }
  }

  lemma RestOfRun(s: Stream, es: seq<Event>, i: nat)
    requires i < |es| && LegalRun(s, es[i..])
    ensures Legal(s, es[i]) && LegalRun(Step(s, es[i]), es[i + 1..])
    ensures Run(s, es[i..]) == Run(Step(s, es[i]), es[i + 1..])
    ensures Statuses(s, es[i..]) == [Returned(s, es[i])] + Statuses(Step(s, es[i]), es[i + 1..])
  {
    assert es[i..][0] == es[i] && es[i..][1..] == es[i + 1..];
  }

  /** A list of events, one after the other. */
  method Drive(f: Object.Filter, es: seq<Event>) returns (returned: seq<Option<Status>>)
    requires LegalRun(f.State(), es)
    modifies f
    ensures f.State() == Run(old(f.State()), es) && returned == Statuses(old(f.State()), es)
  {
    returned := [];
    ghost var run, statuses := Run(f.State(), es), Statuses(f.State(), es);
    assert es[0..] == es;
    var i := 0;
    while i < |es|
      invariant i <= |es| && LegalRun(f.State(), es[i..])
      invariant Run(f.State(), es[i..]) == run
      invariant returned + Statuses(f.State(), es[i..]) == statuses
    {
      RestOfRun(f.State(), es, i);
      ghost var later := Statuses(Step(f.State(), es[i]), es[i + 1..]);
      var r := Dispatch(f, es[i]);
      Object.Assoc(returned, [r], later);
      returned := returned + [r];
      i := i + 1;
    }
  }

  /** A whole request on a new filter of any configuration. */
  method Serve(cfg: Config, script: seq<Action>, bodyScript: seq<Action>, endOfStream: bool, es: seq<Event>)
    returns (f: Object.Filter, status: Status, returned: seq<Option<Status>>)
    requires LegalScript(NEW_WRITER, script)
    requires LegalScript(RunScript(NewStream(cfg), NEW_WRITER, script).1, bodyScript)
    requires LegalRun(OnRequestHeaders(NewStream(cfg), script, bodyScript, endOfStream).0, es)
    ensures fresh(f)
    ensures var (s, st) := OnRequestHeaders(NewStream(cfg), script, bodyScript, endOfStream);
      && f.State() == Run(s, es) && status == st && returned == Statuses(s, es)
      && Resumes(f.trace) == GoResumes(s, es) + CalloutResumes(s, es)
      && GoResumes(s, es) <= GoStarts(script) + GoStarts(bodyScript) + GoStartsIn(s, es)
      && CalloutResumes(s, es) <= CalloutStarts(script) + CalloutStarts(bodyScript) + CalloutStartsIn(s, es)
  {
    f := new Object.Filter(cfg);
    status := f.OnRequestHeaders(script, bodyScript, endOfStream);
    returned := Drive(f, es);
    ResumedAtMostOncePerGo(cfg, script, bodyScript, endOfStream, es);
    ResumedAtMostOncePerStart(cfg, script, bodyScript, endOfStream, es);
  }

  ghost predicate NoneIs(returned: seq<Option<Status>>, upTo: nat, status: Status) {
    forall i | 0 <= i < upTo && i < |returned| :: returned[i] != Some(status)
  }

  ghost predicate AllAre(returned: seq<Option<Status>>, lo: nat, status: Status) {
    forall i | lo <= i < |returned| && returned[i].Some? :: returned[i] == Some(status)
  }

  /** What the object shows after a request whose handler left nothing pending. */
  ghost predicate ConcludedAtOnce(script: seq<Action>, status: Status, trace: seq<Effect>,
                                  returned: seq<Option<Status>>)
    requires LegalScript(NEW_WRITER, script)
  {
    Resumes(trace) == 0 &&
    match FirstReply(ScriptMutations(NEW_WRITER, script))
    case Some(r) => trace == [ResponseSent(r)] && status == Stop && AllAre(returned, 0, Stop)
    case None => Replies(trace) == [] && status == Continue && AllAre(returned, 0, Continue)
  }

  /** What the object shows after a request whose handler left a callback pending; x is the delivery that ran it. */
  ghost predicate ResumedAtDelivery(cfg: Config, script: seq<Action>, x: Option<Firing>, trace: seq<Effect>,
                                    returned: seq<Option<Status>>)
    requires LegalScript(NEW_WRITER, script)
  {
    match x
    case None => trace == [] && NoneIs(returned, |returned|, Continue)
    case Some(x) =>
      match FirstReply(ScriptMutations(NEW_WRITER, script) + x.callback)
      case Some(r) => trace == [ResponseSent(r)] && NoneIs(returned, |returned|, Continue)
      case None =>
        && trace == Outcome(FiredFilter(Queued(NewStream(cfg), script), x), true)
        && Replies(trace) == [] && Resumes(trace) == 1
        && NoneIs(returned, x.index + 1, Continue) && AllAre(returned, x.index + 1, Continue)
  }

  /** The first upTo callbacks return Stop exactly when the handler, or the goroutine by then, has rejected. */
  ghost predicate HeldByReply(script: seq<Action>, es: seq<Event>, upTo: nat, returned: seq<Option<Status>>)
    requires LegalScript(NEW_WRITER, script)
  {
    |returned| == |es| &&
    forall i | 0 <= i < upTo && i < |es| && returned[i].Some? ::
      returned[i] == Some(StatusFor(FirstReply(ScriptMutations(NEW_WRITER, script) + QueuedByGo(es[..i]))))
  }

  function StatusFor(reply: Option<LocalResponse>): Status {
    if reply.Some? then Stop else Continue
  }

  /** What the object shows after a request whose handler called Go; x is the finish that resumed it. */
  ghost predicate ResumedAtFinish(cfg: Config, script: seq<Action>, es: seq<Event>, x: Option<Firing>,
                                  trace: seq<Effect>, returned: seq<Option<Status>>)
    requires LegalScript(NEW_WRITER, script)
  {
    match x
    case None => trace == [] && HeldByReply(script, es, |es|, returned)
    case Some(x) =>
      var q := FiredFilter(Queued(NewStream(cfg), script), x);
      && trace == Outcome(q, true)
      && HeldByReply(script, es, x.index + 1, returned)
      && AllAre(returned, x.index + 1, StatusFor(FirstReply(ScriptMutations(NEW_WRITER, script) + x.callback)))
  }

  lemma ServedImmediately(cfg: Config, script: seq<Action>, endOfStream: bool, es: seq<Event>)
    requires !cfg.hasBodyHandler && LegalScript(NEW_WRITER, script) && GoAsync !in script
    requires LegalRun(OnRequestHeaders(NewStream(cfg), script, [], endOfStream).0, es)
    requires !LeavesPending(NewStream(cfg), script)
    ensures var (s, status) := OnRequestHeaders(NewStream(cfg), script, [], endOfStream);
      ConcludedAtOnce(script, status, Run(s, es).f.trace, Statuses(s, es))
  {
    ImmediateVerdict(cfg, script, endOfStream, es);
  }

  lemma ServedAfterPause(cfg: Config, script: seq<Action>, endOfStream: bool, es: seq<Event>)
    requires !cfg.hasBodyHandler && LegalScript(NEW_WRITER, script) && GoAsync !in script
    requires LegalRun(OnRequestHeaders(NewStream(cfg), script, [], endOfStream).0, es)
    requires LeavesPending(NewStream(cfg), script)
    ensures var (s, status) := OnRequestHeaders(NewStream(cfg), script, [], endOfStream);
      status == Stop && ResumedAtDelivery(cfg, script, FirstFiring(s, es), Run(s, es).f.trace, Statuses(s, es))
  {
    HandoffTheorem(cfg, script, endOfStream, es);
    var s := OnRequestHeaders(NewStream(cfg), script, [], endOfStream).0;
    match FirstFiring(s, es)
    case None =>
    case Some(x) =>
      PausedVerdict(cfg, script, endOfStream, es, x);
      assert [] + Outcome(FiredFilter(Queued(NewStream(cfg), script), x), true)
          == Outcome(FiredFilter(Queued(NewStream(cfg), script), x), true);
  }

  lemma ServedByGo(cfg: Config, script: seq<Action>, endOfStream: bool, es: seq<Event>)
    requires !cfg.hasBodyHandler && LegalScript(NEW_WRITER, script) && GoAsync in script
    requires LegalRun(OnRequestHeaders(NewStream(cfg), script, [], endOfStream).0, es)
    ensures var (s, status) := OnRequestHeaders(NewStream(cfg), script, [], endOfStream);
      status == Stop && ResumedAtFinish(cfg, script, es, GoFinishing(s, es), Run(s, es).f.trace, Statuses(s, es))
  {
    GoHandoffTheorem(cfg, script, endOfStream, es);
    var s := OnRequestHeaders(NewStream(cfg), script, [], endOfStream).0;
    forall ms ensures Verdict(Queued(NewStream(cfg), script), ms)
      == StatusFor(FirstReply(ScriptMutations(NEW_WRITER, script) + ms))
    {
      ReplyOfBoth(NewFilter(cfg), ScriptMutations(NEW_WRITER, script), ms);
    }
    match GoFinishing(s, es)
    case None =>
    case Some(x) =>
      ReplyOfBoth(NewFilter(cfg).(buffered := x.buffered), ScriptMutations(NEW_WRITER, script), x.callback);
      assert [] + Outcome(FiredFilter(Queued(NewStream(cfg), script), x), true)
          == Outcome(FiredFilter(Queued(NewStream(cfg), script), x), true);
  }

  /**
   A whole request on a new filter without a body handler, for every handler and every later run: at once, at the
   delivery that runs the pending callback, or at the goroutine's finish, the object's trace is one flush, with one
   local response or at most one ContinueRequest. A pending callback holds every request callback until that flush;
   a goroutine does not, and until its finish only a local response queued so far returns Stop.
   */
  method ServeWithoutBodyHandler(cfg: Config, script: seq<Action>, endOfStream: bool, es: seq<Event>)
    returns (f: Object.Filter, status: Status, returned: seq<Option<Status>>)
    requires !cfg.hasBodyHandler && LegalScript(NEW_WRITER, script)
    requires LegalRun(OnRequestHeaders(NewStream(cfg), script, [], endOfStream).0, es)
    ensures fresh(f) && returned == Statuses(OnRequestHeaders(NewStream(cfg), script, [], endOfStream).0, es)
    ensures var s := OnRequestHeaders(NewStream(cfg), script, [], endOfStream).0;
      if GoAsync in script then
        status == Stop && ResumedAtFinish(cfg, script, es, GoFinishing(s, es), f.trace, returned)
      else if LeavesPending(NewStream(cfg), script) then
        status == Stop && ResumedAtDelivery(cfg, script, FirstFiring(s, es), f.trace, returned)
      else
        ConcludedAtOnce(script, status, f.trace, returned)
  {
    f, status, returned := Serve(cfg, script, [], endOfStream, es);
    if GoAsync in script {
      ServedByGo(cfg, script, endOfStream, es);
    } else if LeavesPending(NewStream(cfg), script) {
      ServedAfterPause(cfg, script, endOfStream, es);
    } else {
      ServedImmediately(cfg, script, endOfStream, es);
    }
  }
}
