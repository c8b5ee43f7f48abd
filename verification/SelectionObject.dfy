/**
 The completion object of down/cluster.go inside the step model of a selection: one uninterrupted call of a method is a
 run of that selection's steps, and the object's fields and calls keep standing for the selection's state.
 */
module SelectionObject {
  import opened Common
  import opened Completions
  import Sel = Selection

  function CompletedCalls(calls: seq<Call>): nat {
    if calls == [] then 0 else CompletedCalls(calls[..|calls| - 1]) + if calls[|calls| - 1].Completed? then 1 else 0
  }

  function FinishedCalls(calls: seq<Call>): nat {
    if calls == [] then 0 else FinishedCalls(calls[..|calls| - 1]) + if calls[|calls| - 1].Finished? then 1 else 0
  }

  lemma {:induction false} CallsConcat(a: seq<Call>, b: seq<Call>)
    ensures CompletedCalls(a + b) == CompletedCalls(a) + CompletedCalls(b)
    ensures FinishedCalls(a + b) == FinishedCalls(a) + FinishedCalls(b)
  {
    if b == [] {
      assert a + b == a;
    } else {
      assert (a + b)[..|a + b| - 1] == a + b[..|b| - 1];
      CallsConcat(a, b[..|b| - 1]);
    }
  }

  /** Counts after up to two more calls. */
  lemma CallsAfter(calls: seq<Call>, first: seq<Call>, second: seq<Call>)
    requires |first| <= 1 && |second| <= 1
    ensures CompletedCalls(calls + first + second) == CompletedCalls(calls) + Ones(first, true) + Ones(second, true)
    ensures FinishedCalls(calls + first + second) == FinishedCalls(calls) + Ones(first, false) + Ones(second, false)
  {
    CallsConcat(calls + first, second);
    CallsConcat(calls, first);
    SingleCall(first);
    SingleCall(second);
  }

  function Ones(call: seq<Call>, completed: bool): nat
    requires |call| <= 1
  {
    if call != [] && (if completed then call[0].Completed? else call[0].Finished?) then 1 else 0
  }

  lemma SingleCall(call: seq<Call>)
    requires |call| <= 1
    ensures CompletedCalls(call) == Ones(call, true) && FinishedCalls(call) == Ones(call, false)
  {
    if call != [] { assert call[..0] == []; }
  }

  /** Flag, cleanup and calls made are those of the selection. */
  ghost predicate StandsFor(done: bool, finishFn: Option<nat>, calls: seq<Call>, s: Sel.Selection) {
    && done == s.done && finishFn == s.finishFn
    && CompletedCalls(calls) == s.completions && FinishedCalls(calls) == s.frees
  }

  /** The steps of a terminal call whose locked part is first. */
  function TerminalSteps(first: Sel.Step, done: bool, c: nat): seq<Sel.Step> {
    if done then [first] else [first, Sel.WinnerCalls(c), Sel.WinnerFinishes(c)]
  }

  lemma OneStep(w: Sel.World, a: Sel.Step)
    requires Sel.Enabled(w, a)
    ensures Sel.Legal(w, [a]) && Sel.Run(w, [a]) == Sel.Next(w, a)
  {
    assert [a][1..] == [];
  }

  lemma TwoSteps(w: Sel.World, a: Sel.Step, b: Sel.Step)
    requires Sel.Enabled(w, a) && Sel.Enabled(Sel.Next(w, a), b)
    ensures Sel.Legal(w, [a, b]) && Sel.Run(w, [a, b]) == Sel.Next(Sel.Next(w, a), b)
  {
    assert [a, b][1..] == [b];
    OneStep(Sel.Next(w, a), b);
  }

  lemma ThreeSteps(w: Sel.World, a: Sel.Step, b: Sel.Step, d: Sel.Step)
    requires Sel.Enabled(w, a) && Sel.Enabled(Sel.Next(w, a), b) && Sel.Enabled(Sel.Next(Sel.Next(w, a), b), d)
    ensures Sel.Legal(w, [a, b, d]) && Sel.Run(w, [a, b, d]) == Sel.Next(Sel.Next(Sel.Next(w, a), b), d)
  {
    assert [a, b, d][1..] == [b, d];
    TwoSteps(Sel.Next(w, a), b, d);
  }

  /** What a terminal call does to its selection when nothing comes in between. */
  lemma TerminalRun(w: Sel.World, c: nat, first: Sel.Step)
    requires Sel.Sound(w) && c in w.sels && (first == Sel.TryComplete(c) || first == Sel.TryCancel(c))
    requires Sel.Enabled(w, first)
    ensures var s, steps := w.sels[c], TerminalSteps(first, w.sels[c].done, c);
      && Sel.Legal(w, steps) && c in Sel.Run(w, steps).sels
      && var s' := Sel.Run(w, steps).sels[c];
         && s'.done && s'.finishFn == s.finishFn
         && s'.completions == s.completions + (if !s.done && first.TryComplete? then 1 else 0)
         && s'.frees == s.frees + if !s.done && s.finishFn.Some? then 1 else 0
  {
    if w.sels[c].done {
      OneStep(w, first);
    } else {
      ThreeSteps(w, first, Sel.WinnerCalls(c), Sel.WinnerFinishes(c));
    }
  }

  /** A terminal call with the calls it adds keeps standing for its selection. */
  lemma TerminalStands(finishFn: Option<nat>, calls: seq<Call>, w: Sel.World, c: nat, first: Sel.Step, call: seq<Call>)
    requires Sel.Sound(w) && c in w.sels && (first == Sel.TryComplete(c) || first == Sel.TryCancel(c))
    requires Sel.Enabled(w, first) && StandsFor(w.sels[c].done, finishFn, calls, w.sels[c])
    requires |call| <= 1 && Ones(call, false) == 0
    requires Ones(call, true) == if !w.sels[c].done && first.TryComplete? then 1 else 0
    ensures var cleanup := if !w.sels[c].done && finishFn.Some? then [Finished(finishFn.value)] else [];
      var steps := TerminalSteps(first, w.sels[c].done, c);
      && Sel.Legal(w, steps) && c in Sel.Run(w, steps).sels
      && StandsFor(true, finishFn, calls + call + cleanup, Sel.Run(w, steps).sels[c])
  {
    TerminalRun(w, c, first);
    CallsAfter(calls, call, if !w.sels[c].done && finishFn.Some? then [Finished(finishFn.value)] else []);
  }

  /** Complete, called by the closure of selection c. */
  method CompleteAsSteps(o: ClusterLBCompletion, host: nat, errDetail: string, ghost w: Sel.World, ghost c: nat)
    returns (ok: bool, ghost w': Sel.World)
    requires o.completeFn && Sel.Sound(w) && c in w.sels && Sel.Enabled(w, Sel.TryComplete(c))
    requires StandsFor(o.done, o.finishFn, o.calls, w.sels[c])
    modifies o
    ensures ok == !w.sels[c].done
    ensures var steps := TerminalSteps(Sel.TryComplete(c), w.sels[c].done, c);
      Sel.Legal(w, steps) && w' == Sel.Run(w, steps)
    ensures c in w'.sels && StandsFor(o.done, o.finishFn, o.calls, w'.sels[c])
  {
    TerminalStands(o.finishFn, o.calls, w, c, Sel.TryComplete(c),
                   if !w.sels[c].done && o.completeFn then [Completed(host, errDetail)] else []);
    w' := Sel.Run(w, TerminalSteps(Sel.TryComplete(c), w.sels[c].done, c));
    ok := o.Complete(host, errDetail);
  }

  /** Cancel, called by the cancellation export for selection c. */
  method CancelAsSteps(o: ClusterLBCompletion, ghost w: Sel.World, ghost c: nat) returns (ok: bool, ghost w': Sel.World)
    requires Sel.Sound(w) && c in w.sels && Sel.Enabled(w, Sel.TryCancel(c))
    requires StandsFor(o.done, o.finishFn, o.calls, w.sels[c])
    modifies o
    ensures ok == !w.sels[c].done
    ensures var steps := TerminalSteps(Sel.TryCancel(c), w.sels[c].done, c);
      Sel.Legal(w, steps) && w' == Sel.Run(w, steps)
    ensures c in w'.sels && StandsFor(o.done, o.finishFn, o.calls, w'.sels[c])
  {
    TerminalStands(o.finishFn, o.calls, w, c, Sel.TryCancel(c),
                   if !w.sels[c].done && o.cancelFn then [Cancelled] else []);
    w' := Sel.Run(w, TerminalSteps(Sel.TryCancel(c), w.sels[c].done, c));
    ok := o.Cancel();
  }

  /** SetFinishFn, called by choose-host with the token it recorded for selection c. */
  method SetFinishAsSteps(o: ClusterLBCompletion, token: nat, ghost w: Sel.World, ghost c: nat)
    returns (ghost w': Sel.World)
    requires Sel.Sound(w) && c in w.sels && w.sels[c].chooser == Sel.Recorded(token)
    requires StandsFor(o.done, o.finishFn, o.calls, w.sels[c])
    modifies o
    ensures var steps := if w.sels[c].done then [Sel.SetFinish(c), Sel.LateFinish(c)] else [Sel.SetFinish(c)];
      Sel.Legal(w, steps) && w' == Sel.Run(w, steps)
    ensures c in w'.sels && StandsFor(o.done, o.finishFn, o.calls, w'.sels[c])
  {
    if w.sels[c].done {
      TwoSteps(w, Sel.SetFinish(c), Sel.LateFinish(c));
      w' := Sel.Run(w, [Sel.SetFinish(c), Sel.LateFinish(c)]);
    } else {
      OneStep(w, Sel.SetFinish(c));
      w' := Sel.Run(w, [Sel.SetFinish(c)]);
    }
    ghost var calls := o.calls;
    o.SetFinishFn(token);
    CallsAfter(calls, if o.done then [Finished(token)] else [], []);
    assert o.calls + [] == o.calls;
  }
}
