/**
 The callout handoff at the granularity of single compare-and-swap steps: the request callback and the
 completion callback interleave freely. up/writer.go:44-61 and the two sides in up/filter.go and up/grpc.go.
 */
module HandoffCas {
  import opened FilterSpec

  /**
   Request side: before pausePendingCallout, after its failed swap, claimed, stopped by it, or returned after a
   flush.
   */
  datatype RequestPc = Deciding | Claiming | Flushing | Stopped | Returned

  /** Completion side: callback not run, callback returned, after the failed first swap, owning the flush, or over. */
  datatype DonePc = Waiting | First | Second | Owner | Over

  datatype Side = RequestSide | CompletionSide

  /** flushes logs who flushed and whether the user's callback had returned by then; split records history. */
  datatype Machine = Machine(
    state: CalloutState, request: RequestPc, done: DonePc, callbackReturned: bool,
    flushes: seq<(Side, bool)>, split: bool)

  /** The callout has been handed to Envoy. */
  const STARTED := Machine(Active, Deciding, Waiting, false, [], false)

  datatype Step = TryPause | ClaimDone | FlushEarly | RunCallback | TryFlush | TryDone | FlushResume

  predicate Enabled(m: Machine, a: Step) {
    match a
    case TryPause => m.request == Deciding
    case ClaimDone => m.request == Claiming
    case FlushEarly => m.request == Flushing
    case RunCallback => m.done == Waiting
    case TryFlush => m.done == First
    case TryDone => m.done == Second
    case FlushResume => m.done == Owner
  }

  function Next(m: Machine, a: Step): Machine
    requires Enabled(m, a)
  {
    match a
    case TryPause =>
      if m.state == Active then m.(state := Paused, request := Stopped, split := m.done == Second)
      else m.(request := Claiming)
    case ClaimDone => m.(state := if m.state == Done then Flushed else m.state, request := Flushing)
    case FlushEarly => m.(request := Returned, flushes := m.flushes + [(RequestSide, m.callbackReturned)])
    case RunCallback => m.(done := First, callbackReturned := true)
    case TryFlush =>
      if m.state == Paused then m.(state := Flushed, done := Owner) else m.(done := Second)
    case TryDone => m.(state := if m.state == Active then Done else m.state, done := Over)
    case FlushResume => m.(done := Over, flushes := m.flushes + [(CompletionSide, m.callbackReturned)])
  }

  ghost predicate Legal(m: Machine, steps: seq<Step>)
    decreases |steps|
  {
    steps == [] || (Enabled(m, steps[0]) && Legal(Next(m, steps[0]), steps[1..]))
  }

  ghost function Run(m: Machine, steps: seq<Step>): Machine
    requires Legal(m, steps)
    decreases |steps|
  {
    if steps == [] then m else Run(Next(m, steps[0]), steps[1..])
  }

  /** Where the two sides can be together. */
  predicate Reachable(m: Machine) {
    && (m.callbackReturned <==> m.done != Waiting)
    && match m.request
       case Deciding =>
         && m.flushes == [] && !m.split && m.done != Owner
         && m.state == (if m.done == Over then Done else Active)
       case Claiming => m.state == Done && m.done == Over && m.flushes == [] && !m.split
       case Flushing => m.state == Flushed && m.done == Over && m.flushes == [] && !m.split
       case Returned => m.state == Flushed && m.done == Over && m.flushes == [(RequestSide, true)] && !m.split
       case Stopped =>
         if m.split then m.state == Paused && (m.done == Second || m.done == Over) && m.flushes == []
         else match m.done
              case Waiting => m.state == Paused && m.flushes == []
              case First => m.state == Paused && m.flushes == []
              case Second => false
              case Owner => m.state == Flushed && m.flushes == []
              case Over => m.state == Flushed && m.flushes == [(CompletionSide, true)]
  }

  lemma {:induction false} RunReachable(m: Machine, steps: seq<Step>)
    requires Reachable(m) && Legal(m, steps)
    ensures Reachable(Run(m, steps))
    decreases |steps|
  {
    if steps != [] {
      RunReachable(Next(m, steps[0]), steps[1..]);
    }
  }

  /** No step of either side is left. */
  predicate Quiescent(m: Machine) {
    (m.request == Stopped || m.request == Returned) && m.done == Over
  }

  /**
   For every interleaving: at most one side ever flushes, a flush never comes before the user's callback has
   returned, the early flush belongs to a request callback that was not stopped and the resuming flush to one
   that was.
   */
  lemma OneOwner(steps: seq<Step>)
    requires Legal(STARTED, steps)
    ensures var m := Run(STARTED, steps);
      && |m.flushes| <= 1
      && (forall x | x in m.flushes :: x.1)
      && (m.flushes == [(RequestSide, true)] <==> m.request == Returned)
      && ((exists x | x in m.flushes :: x.0 == CompletionSide) ==> m.request == Stopped)
      && !(m.done == Owner && (m.request == Flushing || m.request == Claiming || m.request == Returned))
  {
    RunReachable(STARTED, steps);
  }

  /** Step i is the pause, after the completion's first swap and before its second. */
  predicate PausesBetween(m: Machine, steps: seq<Step>, i: nat)
    requires i < |steps|
  {
    steps[i] == TryPause && (m.done == Second || TryFlush in steps[..i]) && TryDone !in steps[..i]
  }

  /** In a schedule that continues from m, the pause comes after the completion's first swap and before its second. */
  ghost predicate PauseBetweenSwaps(m: Machine, steps: seq<Step>) {
    exists i | 0 <= i < |steps| :: PausesBetween(m, steps, i)
  }

  lemma {:induction false} DecidesOnce(m: Machine, steps: seq<Step>)
    requires Legal(m, steps)
    ensures m.request != Deciding ==> TryPause !in steps
    ensures m.done != Waiting && m.done != First ==> TryFlush !in steps
    decreases |steps|
  {
    if steps != [] { DecidesOnce(Next(m, steps[0]), steps[1..]); }
  }

  lemma ShiftBetween(m: Machine, steps: seq<Step>)
    requires steps != [] && Enabled(m, steps[0]) && steps[0] != TryPause && steps[0] != TryDone
    requires Next(m, steps[0]).done == Second <==> m.done == Second || steps[0] == TryFlush
    ensures PauseBetweenSwaps(m, steps) <==> PauseBetweenSwaps(Next(m, steps[0]), steps[1..])
  {
    var m', rest := Next(m, steps[0]), steps[1..];
    if i :| 0 <= i < |steps| && PausesBetween(m, steps, i) {
      assert steps[..i] == [steps[0]] + rest[..i - 1];
      assert forall x :: x in steps[..i] <==> x == steps[0] || x in rest[..i - 1];
      assert PausesBetween(m', rest, i - 1);
    }
    if j :| 0 <= j < |rest| && PausesBetween(m', rest, j) {
      assert steps[..j + 1] == [steps[0]] + rest[..j];
      assert forall x :: x in steps[..j + 1] <==> x == steps[0] || x in rest[..j];
      assert PausesBetween(m, steps, j + 1);
    }
  }

  lemma PauseHere(m: Machine, steps: seq<Step>)
    requires steps != [] && TryPause !in steps[1..] && Legal(m, steps)
    requires steps[0] != TryFlush || m.done == First
    ensures PauseBetweenSwaps(m, steps) <==> steps[0] == TryPause && m.done == Second
  {
    if steps[0] == TryPause && m.done == Second { assert PausesBetween(m, steps, 0); }
    if i :| 0 <= i < |steps| && PausesBetween(m, steps, i) {
      assert i == 0;
    }
  }

  /** The schedule alone decides whether the handoff is split. */
  lemma {:induction false} SplitIff(m: Machine, steps: seq<Step>)
    requires Reachable(m) && Legal(m, steps)
    ensures Run(m, steps).split <==> m.split || PauseBetweenSwaps(m, steps)
    decreases |steps|
  {
    if steps != [] {
      var m' := Next(m, steps[0]);
      SplitIff(m', steps[1..]);
      DecidesOnce(m, steps);
      DecidesOnce(m', steps[1..]);
      if m'.request != Deciding {
        PauseHere(m, steps);
        NoPauseLeft(m', steps[1..]);
      } else if steps[0] == TryDone {
        AfterSecondSwap(m, steps);
      } else {
        ShiftBetween(m, steps);
      }
    }
  }

  lemma NoPauseLeft(m: Machine, steps: seq<Step>)
    requires TryPause !in steps
    ensures !PauseBetweenSwaps(m, steps)
  {
  }

  lemma AfterSecondSwap(m: Machine, steps: seq<Step>)
    requires steps != [] && steps[0] == TryDone && TryFlush !in steps[1..] && Enabled(m, TryDone)
    ensures !PauseBetweenSwaps(m, steps) && !PauseBetweenSwaps(Next(m, TryDone), steps[1..])
  {
    forall i | 0 < i < |steps| ensures TryDone in steps[..i] {
      assert steps[..i][0] == TryDone;
    }
    forall i | 0 <= i < |steps[1..]| ensures TryFlush !in steps[1..][..i] {
      assert forall x | x in steps[1..][..i] :: x in steps[1..];
    }
  }

  /**
   When both sides are through, the flush has happened exactly once if and only if the schedule does not put the
   pause between the completion's two swaps; if it does, the callout stays Paused with no owner.
   */
  lemma FlushedUnlessSplit(steps: seq<Step>)
    requires Legal(STARTED, steps) && Quiescent(Run(STARTED, steps))
    ensures var m := Run(STARTED, steps);
      && (|m.flushes| == 1 <==> !PauseBetweenSwaps(STARTED, steps))
      && (m.state == Paused <==> PauseBetweenSwaps(STARTED, steps))
      && (PauseBetweenSwaps(STARTED, steps) ==> m.request == Stopped && m.flushes == [])
  {
    RunReachable(STARTED, steps);
    SplitIff(STARTED, steps);
  }

  /** The interleaving that loses the request. */
  lemma SplitHappens()
    ensures var steps := [RunCallback, TryFlush, TryPause, TryDone];
      Legal(STARTED, steps) && Quiescent(Run(STARTED, steps)) && Run(STARTED, steps).split
  {
    var m1 := Next(STARTED, RunCallback);
    var m2 := Next(m1, TryFlush);
    var m3 := Next(m2, TryPause);
    var m4 := Next(m3, TryDone);
    assert Legal(m4, []);
    assert [TryDone][1..] == [];
    assert Legal(m3, [TryDone]) && Run(m3, [TryDone]) == m4;
    assert [TryPause, TryDone][1..] == [TryDone];
    assert Legal(m2, [TryPause, TryDone]) && Run(m2, [TryPause, TryDone]) == m4;
    assert [TryFlush, TryPause, TryDone][1..] == [TryPause, TryDone];
    assert Legal(m1, [TryFlush, TryPause, TryDone]) && Run(m1, [TryFlush, TryPause, TryDone]) == m4;
    assert [RunCallback, TryFlush, TryPause, TryDone][1..] == [TryFlush, TryPause, TryDone];
  }

  /** The worker-thread discipline: the completion's two swaps are not separated by a step of the other side. */
  predicate Disciplined(steps: seq<Step>) {
    forall i | 0 <= i < |steps| && steps[i] == TryFlush :: i + 1 < |steps| ==> steps[i + 1] != TryPause
  }

  lemma {:induction false} DisciplineAvoidsSplit(m: Machine, steps: seq<Step>)
    requires Reachable(m) && Legal(m, steps) && Disciplined(steps) && !m.split
    requires m.done == Second && m.request == Deciding ==> steps == [] || steps[0] != TryPause
    ensures !Run(m, steps).split
    decreases |steps|
  {
    if steps != [] {
      var m' := Next(m, steps[0]);
      assert Disciplined(steps[1..]) by {
        forall i | 0 <= i < |steps[1..]| && steps[1..][i] == TryFlush && i + 1 < |steps[1..]|
          ensures steps[1..][i + 1] != TryPause
        {
          assert steps[i + 1] == TryFlush;
          assert steps[i + 2] == steps[1..][i + 1];
        }
      }
      if steps[0] == TryFlush && |steps| > 1 { assert steps[0 + 1] != TryPause; }
      DisciplineAvoidsSplit(m', steps[1..]);
    }
  }

  /** Under the worker-thread discipline every completed handoff has flushed exactly once. */
  lemma DisciplinedHandoffFlushes(steps: seq<Step>)
    requires Legal(STARTED, steps) && Disciplined(steps) && Quiescent(Run(STARTED, steps))
    ensures |Run(STARTED, steps).flushes| == 1 && Run(STARTED, steps).state == Flushed
  {
    DisciplineAvoidsSplit(STARTED, steps);
    RunReachable(STARTED, steps);
  }
}
