/**
 Sequential callouts of up/writer.go: next chooses one callout at a time from the previous response,
 and done receives all responses when next stops.
 */
module CalloutSequences {
  import opened Common
  import opened AllSettled

  /**
   What one call of next leads to: it stops, or its callout is refused, answered inside HttpCallout,
   or left pending.
   */
  datatype Decision = Stop | Refused(code: nat) | AnsweredNow(result: nat, body: Bytes) | Pending

  /** One call of next: the attempt number and the previous response it received. */
  datatype Ask = Ask(attempt: nat, previous: Option<Response>)

  /** calloutSequence's fields, the callouts Envoy still owes, and a log of the calls of next and done. */
  datatype Sequence = Sequence(
    responses: seq<Response>, finished: bool, inFlight: nat, asked: seq<Ask>, done: seq<seq<Response>>)

  function Immediate(d: Decision): Response
    requires d.Refused? || d.AnsweredNow?
  {
    if d.Refused? then InitFailed(d.code) else Answered(d.result, d.body)
  }

  /** A next function that eventually stops or leaves a callout pending. */
  predicate Settles(ds: seq<Decision>) {
    && ds != []
    && (ds[|ds| - 1].Stop? || ds[|ds| - 1].Pending?)
    && (forall i | 0 <= i < |ds| - 1 :: ds[i].Refused? || ds[i].AnsweredNow?)
  }

  /** calloutSequence.finish up to the handoff: runs done unless finished or the stream is dead. */
  function Finish(s: Sequence, live: bool): Sequence {
    if s.finished || !live then s
    else s.(finished := true, done := s.done + [s.responses])
  }

  /** calloutSequence.step, including the steps nested in callbacks that Envoy runs inside HttpCallout. */
  function Step(s: Sequence, previous: Option<Response>, ds: seq<Decision>, live: bool): Sequence
    requires Settles(ds)
    decreases |ds|
  {
    if s.finished || !live then s
    else
      var s1 := s.(asked := s.asked + [Ask(|s.responses|, previous)]);
      match ds[0]
      case Stop => Finish(s1, live)
      case Pending => s1.(inFlight := s1.inFlight + 1)
      case _ =>
        var r := Immediate(ds[0]);
        Step(s1.(responses := s1.responses + [r]), Some(r), ds[1..], live)
  }

  /** The callback of a pending callout: record the response, then step. */
  function Answer(s: Sequence, r: Response, ds: seq<Decision>, live: bool): Sequence
    requires Settles(ds) && s.inFlight > 0
  {
    Step(s.(responses := s.responses + [r], inFlight := s.inFlight - 1), Some(r), ds, live)
  }

  const FRESH := Sequence([], false, 0, [], [])

  function Begin(ds: seq<Decision>): Sequence
    requires Settles(ds)
  {
    Step(FRESH, None, ds, true)
  }

  datatype Event = Answers(r: Response, ds: seq<Decision>) | StreamDies

  /** Envoy answers only a callout it still owes. */
  ghost predicate LegalRun(s: Sequence, live: bool, es: seq<Event>)
    decreases |es|
  {
    es == [] ||
    match es[0]
    case StreamDies => LegalRun(s, false, es[1..])
    case Answers(r, ds) => s.inFlight > 0 && Settles(ds) && LegalRun(Answer(s, r, ds, live), live, es[1..])
  }

  ghost function Run(s: Sequence, live: bool, es: seq<Event>): (Sequence, bool)
    requires LegalRun(s, live, es)
    decreases |es|
  {
    if es == [] then (s, live)
    else
      match es[0]
      case StreamDies => Run(s, false, es[1..])
      case Answers(r, ds) => Run(Answer(s, r, ds, live), live, es[1..])
  }

  /** The responses next and Envoy produce, read off the environment's behaviour alone. */
  function Immediates(ds: seq<Decision>): seq<Response>
    requires Settles(ds)
    decreases |ds|
  {
    if |ds| == 1 then [] else [Immediate(ds[0])] + Immediates(ds[1..])
  }

  function Outcomes(es: seq<Event>): seq<Response>
    requires forall e | e in es :: e.Answers? ==> Settles(e.ds)
    decreases |es|
  {
    if es == [] then []
    else if es[0].StreamDies? then Outcomes(es[1..])
    else [es[0].r] + Immediates(es[0].ds) + Outcomes(es[1..])
  }

  /** next was called with attempts 0, 1, 2, ..., each time with the immediately preceding response. */
  ghost predicate AskedInOrder(s: Sequence) {
    && |s.asked| <= |s.responses| + 1
    && forall k | 0 <= k < |s.asked| ::
         s.asked[k] == Ask(k, if k == 0 then None else Some(s.responses[k - 1]))
  }

  /** Between callbacks: one callout is owed, or done has run once with every response; death freezes both logs. */
  ghost predicate Quiet(s: Sequence, live: bool) {
    && AskedInOrder(s) && s.inFlight <= 1 && |s.done| <= 1
    && (s.finished ==> s.done == [s.responses] && s.inFlight == 0)
    && (!s.finished ==> s.done == [])
    && (live ==> |s.asked| == |s.responses| + 1 && (s.finished <==> s.inFlight == 0))
  }

  lemma {:induction false} StepSettles(s: Sequence, previous: Option<Response>, ds: seq<Decision>, live: bool)
    requires Settles(ds) && AskedInOrder(s) && s.inFlight == 0 && !s.finished && s.done == []
    requires live ==> |s.asked| == |s.responses|
    requires previous == if s.responses == [] then None else Some(s.responses[|s.responses| - 1])
    ensures var s' := Step(s, previous, ds, live);
      && Quiet(s', live)
      && (!live ==> s' == s)
      && (live ==> s'.responses == s.responses + Immediates(ds))
    decreases |ds|
  {
    if live {
      var s1 := s.(asked := s.asked + [Ask(|s.responses|, previous)]);
      if |ds| > 1 {
        var r := Immediate(ds[0]);
        StepSettles(s1.(responses := s1.responses + [r]), Some(r), ds[1..], live);
        assert s.responses + [r] + Immediates(ds[1..]) == s.responses + Immediates(ds);
      } else {
        assert s.responses + [] == s.responses;
      }
    }
  }

  lemma {:induction false} RunStaysQuiet(s: Sequence, live: bool, es: seq<Event>)
    requires Quiet(s, live) && LegalRun(s, live, es)
    ensures var (s', live') := Run(s, live, es);
      && Quiet(s', live')
      && (!live ==> !live' && s'.asked == s.asked && s'.done == s.done)
    decreases |es|
  {
    if es != [] {
      match es[0]
      case StreamDies => RunStaysQuiet(s, false, es[1..]);
      case Answers(r, ds) =>
        var s1 := s.(responses := s.responses + [r], inFlight := s.inFlight - 1);
        StepSettles(s1, Some(r), ds, live);
        RunStaysQuiet(Answer(s, r, ds, live), live, es[1..]);
    }
  }

  /**
   HTTPCalloutSequence's promise over every run. next sees attempts 0, 1, 2, ... and the preceding response,
   at most one callout is in flight, and done has run at most once; on a live stream it has run exactly when
   nothing is in flight, with every response in attempt order.
   */
  lemma SequenceRun(ds: seq<Decision>, es: seq<Event>)
    requires Settles(ds) && LegalRun(Begin(ds), true, es)
    ensures var (s, live) := Run(Begin(ds), true, es);
      && AskedInOrder(s) && s.inFlight <= 1
      && (s.done == [] || s.done == [s.responses])
      && (live ==> |s.asked| == |s.responses| + 1)
      && (live ==> (s.done == [s.responses] <==> s.inFlight == 0))
  {
    StepSettles(FRESH, None, ds, true);
    RunStaysQuiet(Begin(ds), true, es);
  }

  lemma {:induction false} ResponsesOfRun(s: Sequence, es: seq<Event>)
    requires Quiet(s, true) && LegalRun(s, true, es) && forall e | e in es :: e.Answers? && Settles(e.ds)
    ensures Run(s, true, es) == (Run(s, true, es).0, true)
    ensures Run(s, true, es).0.responses == s.responses + Outcomes(es)
    decreases |es|
  {
    if es != [] {
      assert es[0] in es;
      var s1 := s.(responses := s.responses + [es[0].r], inFlight := s.inFlight - 1);
      StepSettles(s1, Some(es[0].r), es[0].ds, true);
      var s2 := Answer(s, es[0].r, es[0].ds, true);
      ResponsesOfRun(s2, es[1..]);
      assert s1.responses + Immediates(es[0].ds) + Outcomes(es[1..])
          == s.responses + ([es[0].r] + Immediates(es[0].ds) + Outcomes(es[1..]));
    }
  }

  /** The collected responses are the environment's outcomes in the order they happened. */
  lemma SequenceCollects(ds: seq<Decision>, es: seq<Event>)
    requires Settles(ds) && LegalRun(Begin(ds), true, es) && forall e | e in es :: e.Answers? && Settles(e.ds)
    ensures Run(Begin(ds), true, es).0.responses == Immediates(ds) + Outcomes(es)
  {
    StepSettles(FRESH, None, ds, true);
    ResponsesOfRun(Begin(ds), es);
    assert [] + Immediates(ds) == Immediates(ds);
  }

  /** What the environment's outcomes are: a refusal by its code, an answer by its result and body. */
  lemma ImmediateOutcomes(ds: seq<Decision>, i: nat)
    requires Settles(ds) && i + 1 < |ds|
    ensures |Immediates(ds)| == |ds| - 1
    ensures Immediates(ds)[i] == if ds[i].Refused? then InitFailed(ds[i].code) else Answered(ds[i].result, ds[i].body)
    decreases |ds|
  {
    if |ds| > 2 { ImmediateOutcomes(ds[1..], if i == 0 then 0 else i - 1); }
  }

  /** Once the stream is done, neither next nor done is called again. */
  lemma DeadSequenceIsSilent(s: Sequence, es: seq<Event>)
    requires Quiet(s, false) && LegalRun(s, false, es)
    ensures Run(s, false, es).0.asked == s.asked && Run(s, false, es).0.done == s.done
  {
    RunStaysQuiet(s, false, es);
  }

  /** The sequence object, with its fields updated in place. */
  class CalloutSequence {
    var responses: seq<Response>
    var finished: bool
    var inFlight: nat
    var asked: seq<Ask>
    var done: seq<seq<Response>>

    ghost function State(): Sequence
      reads this
    {
      Sequence(responses, finished, inFlight, asked, done)
    }

    constructor ()
      ensures State() == FRESH
    {
      responses, finished, inFlight, asked, done := [], false, 0, [], [];
    }

    method RunFinish(live: bool)
      modifies this
      ensures State() == Finish(old(State()), live)
    {
      if finished || !live { return; }
      finished := true;
      done := done + [responses];
    }

    method RunStep(previous: Option<Response>, ds: seq<Decision>, live: bool)
      requires Settles(ds)
      modifies this
      ensures State() == Step(old(State()), previous, ds, live)
      decreases |ds|
    {
      if finished || !live { return; }
      asked := asked + [Ask(|responses|, previous)];
      match ds[0] {
        case Stop => RunFinish(live);
        case Pending => inFlight := inFlight + 1;
        case AnsweredNow(result, body) =>
          responses := responses + [Answered(result, body)];
          RunStep(Some(responses[|responses| - 1]), ds[1..], live);
        case Refused(code) =>
          responses := responses + [InitFailed(code)];
          RunStep(Some(responses[|responses| - 1]), ds[1..], live);
      }
    }

    method OnAnswer(r: Response, ds: seq<Decision>, live: bool)
      requires Settles(ds) && inFlight > 0
      modifies this
      ensures State() == Answer(old(State()), r, ds, live)
    {
      inFlight := inFlight - 1;
      responses := responses + [r];
      RunStep(Some(responses[|responses| - 1]), ds, live);
    }
  }
}
