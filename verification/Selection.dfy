/**
 Asynchronous host selection: ClusterLBCompletion (down/cluster.go), AsyncHostSelector
 (up/async_host_selector.go), the choose and cancel exports and the scheduler (down/abi_impl/cluster.go),
 and the token table (down/abi_impl/internal.go), stepped lock by lock for any number of selections at once.
 */
module Selection {
  import opened Common

  /** ChooseHost's thread: before record, after record, owing the late finish, or returned. */
  datatype Chooser = Choosing | Recorded(token: nat) | FinishDue(token: nat) | Chosen(token: nat)

  /** The terminal action that won, with the finish function it read under the lock and how far it is. */
  datatype Winner = Nobody | Complete(finish: Option<nat>, stage: nat) | Cancel(finish: Option<nat>, stage: nat)

  /** The closure that the promise's callback schedules. */
  datatype Closure = Unscheduled | Scheduled(id: nat) | Checked | Ended

  /**
   One ClusterLBCompletion with its threads. completions, frees, notified and checkedFirst record history:
   Envoy's completion calls, removals of its token, the selector's Cancel, and that the closure looked for a
   cancellation and found none.
   */
  datatype Selection = Selection(
    done: bool, finishFn: Option<nat>, chooser: Chooser, winner: Winner, closure: Closure,
    completions: nat, frees: nat, notified: bool, checkedFirst: bool)

  const FRESH := Selection(false, None, Choosing, Nobody, Unscheduled, 0, 0, false, false)

  /**
   table is the token table; a token not in it may be handed out again by malloc. unwrapped are the
   selections some cancel call has looked up; cancelled is the selector's map; badFree is set when a token is
   freed that the freeing selection does not own.
   */
  datatype World = World(
    sels: map<nat, Selection>, table: map<nat, nat>, unwrapped: set<nat>, cancelled: set<nat>,
    pending: map<nat, nat>, nextId: nat, badFree: bool)

  const START := World(map[], map[], {}, {}, map[], 0, false)

  datatype Step =
    | Choose(c: nat)
    | Record(c: nat, token: nat)
    | SetFinish(c: nat)
    | LateFinish(c: nat)
    | PromiseFires(c: nat)
    | RunPending(id: nat)
    | TryComplete(c: nat)
    | Unwrap(token: nat)
    | TryCancel(c: nat)
    | WinnerCalls(c: nat)
    | WinnerFinishes(c: nat)
    | NotifySelector(c: nat)

  predicate Enabled(w: World, a: Step) {
    match a
    case Choose(c) => c !in w.sels
    case Record(c, t) => c in w.sels && w.sels[c].chooser.Choosing? && t !in w.table
    case SetFinish(c) => c in w.sels && w.sels[c].chooser.Recorded?
    case LateFinish(c) => c in w.sels && w.sels[c].chooser.FinishDue?
    case PromiseFires(c) => c in w.sels && w.sels[c].closure.Unscheduled?
    case RunPending(id) => true
    case TryComplete(c) => c in w.sels && w.sels[c].closure.Checked?
    case Unwrap(t) => true
    case TryCancel(c) => c in w.sels && c in w.unwrapped
    case WinnerCalls(c) => c in w.sels && !w.sels[c].winner.Nobody? && w.sels[c].winner.stage == 0
    case WinnerFinishes(c) => c in w.sels && !w.sels[c].winner.Nobody? && w.sels[c].winner.stage == 1
    case NotifySelector(c) =>
      c in w.sels && w.sels[c].winner.Cancel? && w.sels[c].winner.stage == 2 && !w.sels[c].notified
  }

  /** manager.remove on behalf of selection c. */
  function Free(w: World, c: nat, t: nat, s: Selection): World {
    w.(sels := w.sels[c := s.(frees := s.frees + 1)], table := w.table - {t},
       badFree := w.badFree || t !in w.table || w.table[t] != c)
  }

  function Next(w: World, a: Step): World
    requires Enabled(w, a)
  {
    match a
    case Choose(c) => w.(sels := w.sels[c := FRESH])
    case Record(c, t) => w.(sels := w.sels[c := w.sels[c].(chooser := Recorded(t))], table := w.table[t := c])
    case SetFinish(c) =>
      var s := w.sels[c];
      var t := s.chooser.token;
      w.(sels := w.sels[c := if s.done then s.(chooser := FinishDue(t))
        else s.(chooser := Chosen(t), finishFn := Some(t))])
    case LateFinish(c) =>
      var s := w.sels[c];
      Free(w, c, s.chooser.token, s.(chooser := Chosen(s.chooser.token)))
    case PromiseFires(c) =>
      w.(sels := w.sels[c := w.sels[c].(closure := Scheduled(w.nextId))],
         pending := w.pending[w.nextId := c], nextId := w.nextId + 1)
    case RunPending(id) =>
      if id !in w.pending || w.pending[id] !in w.sels then w.(pending := w.pending - {id})
      else
        var c := w.pending[id];
        var hit := c in w.cancelled;
        w.(pending := w.pending - {id}, cancelled := w.cancelled - {c},
           sels := w.sels[c := w.sels[c].(closure := if hit then Ended else Checked, checkedFirst := !hit)])
    case TryComplete(c) =>
      var s := w.sels[c].(closure := Ended);
      w.(sels := w.sels[c := if s.done then s else s.(done := true, winner := Complete(s.finishFn, 0))])
    case Unwrap(t) => if t in w.table then w.(unwrapped := w.unwrapped + {w.table[t]}) else w
    case TryCancel(c) =>
      var s := w.sels[c];
      w.(sels := w.sels[c := if s.done then s else s.(done := true, winner := Cancel(s.finishFn, 0))])
    case WinnerCalls(c) =>
      var s := w.sels[c];
      w.(sels := w.sels[c := s.(winner := s.winner.(stage := 1),
                                completions := if s.winner.Complete? then s.completions + 1 else s.completions)])
    case WinnerFinishes(c) =>
      var s := w.sels[c].(winner := w.sels[c].winner.(stage := 2));
      if s.winner.finish.Some? then Free(w, c, s.winner.finish.value, s) else w.(sels := w.sels[c := s])
    case NotifySelector(c) =>
      w.(sels := w.sels[c := w.sels[c].(notified := true)], cancelled := w.cancelled + {c})
  }

  ghost predicate Legal(w: World, steps: seq<Step>)
    decreases |steps|
  {
    steps == [] || (Enabled(w, steps[0]) && Legal(Next(w, steps[0]), steps[1..]))
  }

  ghost function Run(w: World, steps: seq<Step>): World
    requires Legal(w, steps)
    decreases |steps|
  {
    if steps == [] then w else Run(Next(w, steps[0]), steps[1..])
  }

  // ---------------------------------------------------------------------------------------------
  // What every interleaving keeps

  /** The token a selection still has to free. */
  function Held(s: Selection): Option<nat> {
    match s.chooser
    case Choosing => None
    case Recorded(t) => Some(t)
    case FinishDue(t) => Some(t)
    case Chosen(t) => if s.frees == 0 then Some(t) else None
  }

  /** One completion by itself: who won, what it read, what it has called and freed. */
  predicate SoundAlone(s: Selection) {
    && (s.done <==> !s.winner.Nobody?)
    && (!s.winner.Nobody? ==> s.winner.stage <= 2 && s.winner.finish == s.finishFn)
    && s.completions == (if s.winner.Complete? && s.winner.stage >= 1 then 1 else 0)
    && (match s.chooser
        case Chosen(t) =>
          if s.finishFn.Some? then
            s.finishFn == Some(t) && s.frees == (if !s.winner.Nobody? && s.winner.stage == 2 then 1 else 0)
          else s.done && s.frees == 1
        case FinishDue(t) => s.done && s.finishFn.None? && s.frees == 0
        case _ => s.finishFn.None? && s.frees == 0)
    && (s.notified ==> s.winner.Cancel? && s.winner.stage == 2)
    && (s.checkedFirst ==> s.closure.Checked? || s.closure.Ended?)
    && (s.closure.Checked? ==> s.checkedFirst)
    && (s.closure.Ended? ==> s.checkedFirst || s.notified)
  }

  /** Its places in the shared tables. */
  predicate SoundShared(w: World, c: nat)
    requires c in w.sels
  {
    var s := w.sels[c];
    && (Held(s).Some? ==> Held(s).value in w.table && w.table[Held(s).value] == c)
    && (s.closure.Scheduled? ==> s.closure.id in w.pending && w.pending[s.closure.id] == c)
    && (c in w.cancelled <==> s.notified && (s.checkedFirst || s.closure.Unscheduled? || s.closure.Scheduled?))
  }

  ghost predicate Sound(w: World) {
    && !w.badFree
    && (forall c | c in w.sels :: SoundAlone(w.sels[c]) && SoundShared(w, c))
    && (forall t | t in w.table :: w.table[t] in w.sels && Held(w.sels[w.table[t]]) == Some(t))
    && (forall id | id in w.pending ::
          id < w.nextId && w.pending[id] in w.sels && w.sels[w.pending[id]].closure == Scheduled(id))
    && (forall c | c in w.cancelled :: c in w.sels)
  }

  lemma FreeSound(w: World, c: nat, t: nat, s: Selection)
    requires Sound(w) && c in w.sels && Held(w.sels[c]) == Some(t)
    requires SoundAlone(s.(frees := s.frees + 1)) && s.frees == 0 && s.chooser == Chosen(t)
    requires s.closure == w.sels[c].closure && s.notified == w.sels[c].notified
      && s.checkedFirst == w.sels[c].checkedFirst
    ensures Sound(Free(w, c, t, s))
  {
    var w' := Free(w, c, t, s);
    forall d | d in w'.sels ensures SoundAlone(w'.sels[d]) && SoundShared(w', d) {
      assert SoundAlone(w.sels[d]) && SoundShared(w, d);
    }
    forall u | u in w'.table ensures w'.table[u] in w'.sels && Held(w'.sels[w'.table[u]]) == Some(u) {
      assert w'.table[u] == w.table[u];
    }
  }

  /** A step that changes one selection and none of the shared tables. */
  lemma LocalSound(w: World, c: nat, s: Selection)
    requires Sound(w) && c in w.sels && SoundAlone(s) && Held(s) == Held(w.sels[c])
    requires s.closure == w.sels[c].closure || (s.closure.Ended? && w.sels[c].closure.Checked?)
    requires s.notified == w.sels[c].notified && s.checkedFirst == w.sels[c].checkedFirst
    ensures Sound(w.(sels := w.sels[c := s]))
  {
    var w' := w.(sels := w.sels[c := s]);
    forall d | d in w'.sels ensures SoundAlone(w'.sels[d]) && SoundShared(w', d) {
      assert SoundAlone(w.sels[d]) && SoundShared(w, d);
    }
    forall t | t in w'.table ensures w'.table[t] in w'.sels && Held(w'.sels[w'.table[t]]) == Some(t) {
      assert Held(w.sels[w.table[t]]) == Some(t);
    }
    forall id | id in w'.pending
      ensures id < w'.nextId && w'.pending[id] in w'.sels && w'.sels[w'.pending[id]].closure == Scheduled(id)
    {
      assert w.sels[w.pending[id]].closure == Scheduled(id);
    }
  }

  lemma SetFinishSound(w: World, c: nat)
    requires Sound(w) && Enabled(w, SetFinish(c))
    ensures Sound(Next(w, SetFinish(c)))
  {
    assert SoundAlone(w.sels[c]);
    LocalSound(w, c, Next(w, SetFinish(c)).sels[c]);
  }

  lemma LateFinishSound(w: World, c: nat)
    requires Sound(w) && Enabled(w, LateFinish(c))
    ensures Sound(Next(w, LateFinish(c)))
  {
    var s := w.sels[c];
    assert SoundAlone(s);
    FreeSound(w, c, s.chooser.token, s.(chooser := Chosen(s.chooser.token)));
  }

  lemma TryCompleteSound(w: World, c: nat)
    requires Sound(w) && Enabled(w, TryComplete(c))
    ensures Sound(Next(w, TryComplete(c)))
  {
    assert SoundAlone(w.sels[c]);
    LocalSound(w, c, Next(w, TryComplete(c)).sels[c]);
  }

  lemma TryCancelSound(w: World, c: nat)
    requires Sound(w) && Enabled(w, TryCancel(c))
    ensures Sound(Next(w, TryCancel(c)))
  {
    assert SoundAlone(w.sels[c]);
    LocalSound(w, c, Next(w, TryCancel(c)).sels[c]);
  }

  lemma WinnerCallsSound(w: World, c: nat)
    requires Sound(w) && Enabled(w, WinnerCalls(c))
    ensures Sound(Next(w, WinnerCalls(c)))
  {
    assert SoundAlone(w.sels[c]);
    LocalSound(w, c, Next(w, WinnerCalls(c)).sels[c]);
  }

  lemma WinnerFinishesSound(w: World, c: nat)
    requires Sound(w) && Enabled(w, WinnerFinishes(c))
    ensures Sound(Next(w, WinnerFinishes(c)))
  {
    var s := w.sels[c].(winner := w.sels[c].winner.(stage := 2));
    assert SoundAlone(w.sels[c]);
    if s.winner.finish.Some? { FreeSound(w, c, s.winner.finish.value, s); } else { LocalSound(w, c, s); }
  }

  lemma UnwrapSound(w: World, t: nat)
    requires Sound(w)
    ensures Sound(Next(w, Unwrap(t)))
  {
    var w' := Next(w, Unwrap(t));
    forall d | d in w'.sels ensures SoundAlone(w'.sels[d]) && SoundShared(w', d) {
      assert SoundAlone(w.sels[d]) && SoundShared(w, d);
    }
  }

  lemma StepSound(w: World, a: Step)
    requires Sound(w) && Enabled(w, a)
    ensures Sound(Next(w, a))
  {
    match a
    case Choose(c) => ChooseSound(w, c);
    case Record(c, t) => RecordSound(w, c, t);
    case SetFinish(c) => SetFinishSound(w, c);
    case LateFinish(c) => LateFinishSound(w, c);
    case PromiseFires(c) => PromiseSound(w, c);
    case RunPending(id) => PendingSound(w, id);
    case TryComplete(c) => TryCompleteSound(w, c);
    case Unwrap(t) => UnwrapSound(w, t);
    case TryCancel(c) => TryCancelSound(w, c);
    case WinnerCalls(c) => WinnerCallsSound(w, c);
    case WinnerFinishes(c) => WinnerFinishesSound(w, c);
    case NotifySelector(c) => NotifySound(w, c);
  }

  lemma ChooseSound(w: World, c: nat)
    requires Sound(w) && c !in w.sels
    ensures Sound(w.(sels := w.sels[c := FRESH]))
  {
    var w' := w.(sels := w.sels[c := FRESH]);
    forall d | d in w'.sels ensures SoundAlone(w'.sels[d]) && SoundShared(w', d) {
      if d != c { assert SoundAlone(w.sels[d]) && SoundShared(w, d); }
    }
  }

  lemma RecordSound(w: World, c: nat, t: nat)
    requires Sound(w) && Enabled(w, Record(c, t))
    ensures Sound(Next(w, Record(c, t)))
  {
    var w' := Next(w, Record(c, t));
    forall d | d in w'.sels ensures SoundAlone(w'.sels[d]) && SoundShared(w', d) {
      assert SoundAlone(w.sels[d]) && SoundShared(w, d);
    }
  }

  lemma PromiseSound(w: World, c: nat)
    requires Sound(w) && Enabled(w, PromiseFires(c))
    ensures Sound(Next(w, PromiseFires(c)))
  {
    var w' := Next(w, PromiseFires(c));
    forall d | d in w'.sels ensures SoundAlone(w'.sels[d]) && SoundShared(w', d) {
      assert SoundAlone(w.sels[d]) && SoundShared(w, d);
    }
  }

  lemma PendingSound(w: World, id: nat)
    requires Sound(w)
    ensures Sound(Next(w, RunPending(id)))
  {
    if id in w.pending {
      ClosureSound(w, id, w.pending[id]);
    } else {
      assert w.pending - {id} == w.pending;
    }
  }

  /** The closure of c looks for a cancellation. */
  lemma ClosureSound(w: World, id: nat, c: nat)
    requires Sound(w) && id in w.pending && w.pending[id] == c
    ensures Sound(Next(w, RunPending(id)))
  {
    var w' := Next(w, RunPending(id));
    assert SoundAlone(w.sels[c]) && SoundShared(w, c);
    assert SoundAlone(w'.sels[c]) && SoundShared(w', c);
    forall d | d in w'.sels ensures SoundAlone(w'.sels[d]) && SoundShared(w', d) {
      if d != c { assert SoundAlone(w.sels[d]) && SoundShared(w, d); }
    }
  }

  lemma NotifySound(w: World, c: nat)
    requires Sound(w) && Enabled(w, NotifySelector(c))
    ensures Sound(Next(w, NotifySelector(c)))
  {
    var w' := Next(w, NotifySelector(c));
    forall d | d in w'.sels ensures SoundAlone(w'.sels[d]) && SoundShared(w', d) {
      assert SoundAlone(w.sels[d]) && SoundShared(w, d);
    }
  }

  lemma {:induction false} RunSound(w: World, steps: seq<Step>)
    requires Sound(w) && Legal(w, steps)
    ensures Sound(Run(w, steps))
    decreases |steps|
  {
    if steps != [] {
      StepSound(w, steps[0]);
      RunSound(Next(w, steps[0]), steps[1..]);
    }
  }

  /**
   For every interleaving of any number of selections: Envoy's completion runs at most once per selection and
   never if Cancel won; a token is freed at most once, only by the selection that owns it, and it is in the
   table exactly while it is still to be freed; both terminal calls after the first are refused.
   */
  lemma FirstTerminalActionWins(steps: seq<Step>, c: nat)
    requires Legal(START, steps) && c in Run(START, steps).sels
    ensures var w := Run(START, steps);
      var s := w.sels[c];
      && !w.badFree
      && s.completions <= 1 && s.frees <= 1
      && (s.winner.Cancel? ==> s.completions == 0)
      && (s.completions == 1 ==> s.winner.Complete?)
      && (forall t | t in w.table && w.table[t] == c :: Held(s) == Some(t))
      && (Held(s).Some? ==> Held(s).value in w.table && w.table[Held(s).value] == c)
      && (s.done ==> Enabled(w, TryCancel(c)) ==> Next(w, TryCancel(c)) == w)
  {
    RunSound(START, steps);
    var w := Run(START, steps);
    assert SoundAlone(w.sels[c]) && SoundShared(w, c);
    if w.sels[c].done { assert w.sels[c := w.sels[c]] == w.sels; }
  }

  /** When a terminal action and SetFinishFn have both happened, the token has been freed exactly once and is gone. */
  lemma FreedExactlyOnce(steps: seq<Step>, c: nat)
    requires Legal(START, steps) && c in Run(START, steps).sels
    requires var s := Run(START, steps).sels[c];
      s.chooser.Chosen? && !s.winner.Nobody? && s.winner.stage == 2
    ensures var w := Run(START, steps);
      w.sels[c].frees == 1 && forall t | t in w.table :: w.table[t] != c
  {
    RunSound(START, steps);
    var w := Run(START, steps);
    assert SoundAlone(w.sels[c]);
    forall t | t in w.table ensures w.table[t] != c {
      assert Held(w.sels[w.table[t]]) == Some(t);
    }
  }

  /** Conversely, before a terminal action nothing is freed: the handle stays valid while the request waits. */
  lemma NotFreedEarly(steps: seq<Step>, c: nat)
    requires Legal(START, steps) && c in Run(START, steps).sels && !Run(START, steps).sels[c].done
    ensures Run(START, steps).sels[c].frees == 0
    ensures forall t | Run(START, steps).sels[c].chooser == Chosen(t) ::
      t in Run(START, steps).table && Run(START, steps).table[t] == c
  {
    RunSound(START, steps);
    var w := Run(START, steps);
    assert SoundAlone(w.sels[c]) && SoundShared(w, c);
  }

  // ---------------------------------------------------------------------------------------------
  // Schedules: what the order of the steps decides

  lemma {:induction false} RunSnoc(w: World, steps: seq<Step>, a: Step)
    requires Legal(w, steps + [a])
    ensures Legal(w, steps) && Enabled(Run(w, steps), a) && Run(w, steps + [a]) == Next(Run(w, steps), a)
    decreases |steps|
  {
    if steps == [] {
      assert steps + [a] == [a];
      assert [a][1..] == [];
    } else {
      assert (steps + [a])[1..] == steps[1..] + [a];
      RunSnoc(Next(w, steps[0]), steps[1..], a);
    }
  }

  /** Promise callbacks fired so far, which is how closure ids are numbered. */
  function Fired(steps: seq<Step>): nat {
    if steps == [] then 0
    else Fired(steps[..|steps| - 1]) + if steps[|steps| - 1].PromiseFires? then 1 else 0
  }

  /** The id under which the closure of c has been scheduled. */
  function ClosureId(steps: seq<Step>, c: nat): Option<nat> {
    if steps == [] then None
    else
      var before := steps[..|steps| - 1];
      if steps[|steps| - 1] == PromiseFires(c) then Some(Fired(before)) else ClosureId(before, c)
  }

  /** The closure of c is run, by its id, at a time when the selector has not been told of a cancellation of c. */
  ghost predicate LooksBeforeNotice(steps: seq<Step>, c: nat) {
    exists i | 0 <= i < |steps| :: LooksAt(steps, i, c) && NotifySelector(c) !in steps[..i]
  }

  predicate LooksAt(steps: seq<Step>, i: nat, c: nat)
    requires i < |steps|
  {
    var id := ClosureId(steps[..i], c);
    id.Some? && steps[i] == RunPending(id.value)
  }

  lemma LooksSnoc(steps: seq<Step>, a: Step, c: nat)
    ensures LooksBeforeNotice(steps + [a], c) <==>
      || LooksBeforeNotice(steps, c)
      || (ClosureId(steps, c).Some? && a == RunPending(ClosureId(steps, c).value) && NotifySelector(c) !in steps)
  {
    var all, n := steps + [a], |steps|;
    assert all[..n] == steps;
    forall i | 0 <= i < n ensures LooksAt(all, i, c) == LooksAt(steps, i, c) && all[..i] == steps[..i] {
      assert all[..i] == steps[..i];
    }
    if LooksBeforeNotice(all, c) {
      var i :| 0 <= i < |all| && LooksAt(all, i, c) && NotifySelector(c) !in all[..i];
      if i < n { assert LooksAt(steps, i, c) && NotifySelector(c) !in steps[..i]; }
    }
    if LooksBeforeNotice(steps, c) {
      var i :| 0 <= i < |steps| && LooksAt(steps, i, c) && NotifySelector(c) !in steps[..i];
      assert LooksAt(all, i, c) && NotifySelector(c) !in all[..i];
    }
    if ClosureId(steps, c).Some? && a == RunPending(ClosureId(steps, c).value) && NotifySelector(c) !in steps {
      assert LooksAt(all, n, c) && NotifySelector(c) !in all[..n];
    }
  }

  /** What the schedule says about one selection is what its state remembers. */
  ghost predicate Remembered(steps: seq<Step>, w: World, c: nat)
    requires c in w.sels
  {
    var s := w.sels[c];
    && (s.notified <==> NotifySelector(c) in steps)
    && (s.closure.Unscheduled? <==> ClosureId(steps, c).None?)
    && (s.closure.Scheduled? ==> ClosureId(steps, c) == Some(s.closure.id))
    && (s.checkedFirst <==> LooksBeforeNotice(steps, c))
  }

  ghost predicate Follows(steps: seq<Step>, w: World) {
    && w.nextId == Fired(steps)
    && (forall c | c in w.sels :: Remembered(steps, w, c))
    && (forall c | c !in w.sels ::
          ClosureId(steps, c).None? && NotifySelector(c) !in steps && !LooksBeforeNotice(steps, c))
    && (forall c | ClosureId(steps, c).Some? :: ClosureId(steps, c).value < w.nextId)
    && (forall c, d | ClosureId(steps, c).Some? && ClosureId(steps, d) == ClosureId(steps, c) :: c == d)
  }

  lemma {:induction false} EveryRunFollows(steps: seq<Step>)
    requires Legal(START, steps)
    ensures Follows(steps, Run(START, steps)) && Sound(Run(START, steps))
    decreases |steps|
  {
    RunSound(START, steps);
    if steps != [] {
      var before, a := steps[..|steps| - 1], steps[|steps| - 1];
      assert steps == before + [a];
      RunSnoc(START, before, a);
      EveryRunFollows(before);
      StepFollows(before, Run(START, before), a);
    }
  }

  lemma IdsSnoc(steps: seq<Step>, a: Step, c: nat)
    ensures Fired(steps + [a]) == Fired(steps) + if a.PromiseFires? then 1 else 0
    ensures ClosureId(steps + [a], c) == if a == PromiseFires(c) then Some(Fired(steps)) else ClosureId(steps, c)
    ensures NotifySelector(c) in steps + [a] <==> NotifySelector(c) in steps || a == NotifySelector(c)
  {
    assert (steps + [a])[..|steps|] == steps;
  }

  lemma StepFollows(steps: seq<Step>, w: World, a: Step)
    requires Follows(steps, w) && Sound(w) && Enabled(w, a)
    ensures Follows(steps + [a], Next(w, a))
  {
    var w' := Next(w, a);
    forall c ensures c in w'.sels ==> Remembered(steps + [a], w', c)
      ensures c !in w'.sels ==>
        ClosureId(steps + [a], c).None? && NotifySelector(c) !in steps + [a] && !LooksBeforeNotice(steps + [a], c)
    {
      IdsSnoc(steps, a, c);
      LooksSnoc(steps, a, c);
      OneFollows(steps, w, a, c);
    }
    IdsSnoc(steps, a, 0);
    forall c | ClosureId(steps + [a], c).Some? ensures ClosureId(steps + [a], c).value < w'.nextId {
      IdsSnoc(steps, a, c);
    }
    forall c, d | ClosureId(steps + [a], c).Some? && ClosureId(steps + [a], d) == ClosureId(steps + [a], c)
      ensures c == d {
      IdsSnoc(steps, a, c);
      IdsSnoc(steps, a, d);
    }
  }

  lemma OneFollows(steps: seq<Step>, w: World, a: Step, c: nat)
    requires Follows(steps, w) && Sound(w) && Enabled(w, a)
    ensures var w' := Next(w, a);
      && (c in w'.sels ==> Remembered(steps + [a], w', c))
      && (c !in w'.sels ==>
          ClosureId(steps + [a], c).None? && NotifySelector(c) !in steps + [a] && !LooksBeforeNotice(steps + [a], c))
  {
    if c in w.sels {
      if a.RunPending? {
        PendingFollows(steps, w, a.id, c);
      } else if a.PromiseFires? || a.NotifySelector? {
        NoticeFollows(steps, w, a, c);
      } else {
        OtherFollows(steps, w, a, c);
      }
    } else {
      NewFollows(steps, w, a, c);
    }
  }

  lemma NewFollows(steps: seq<Step>, w: World, a: Step, c: nat)
    requires Follows(steps, w) && Sound(w) && Enabled(w, a) && c !in w.sels
    ensures var w' := Next(w, a);
      && (c in w'.sels ==> Remembered(steps + [a], w', c))
      && (c !in w'.sels ==>
          ClosureId(steps + [a], c).None? && NotifySelector(c) !in steps + [a] && !LooksBeforeNotice(steps + [a], c))
  {
    IdsSnoc(steps, a, c);
    LooksSnoc(steps, a, c);
    NewStays(w, a, c);
  }

  lemma NewStays(w: World, a: Step, c: nat)
    requires Sound(w) && Enabled(w, a) && c !in w.sels
    ensures a != PromiseFires(c) && a != NotifySelector(c)
    ensures c in Next(w, a).sels ==> Next(w, a).sels[c] == FRESH
  {
  }

  lemma NoticeFollows(steps: seq<Step>, w: World, a: Step, c: nat)
    requires Follows(steps, w) && Enabled(w, a) && c in w.sels && (a.PromiseFires? || a.NotifySelector?)
    ensures c in Next(w, a).sels && Remembered(steps + [a], Next(w, a), c)
  {
    IdsSnoc(steps, a, c);
    LooksSnoc(steps, a, c);
    assert Remembered(steps, w, c);
  }

  lemma OtherFollows(steps: seq<Step>, w: World, a: Step, c: nat)
    requires Follows(steps, w) && Enabled(w, a) && c in w.sels
    requires !a.RunPending? && !a.PromiseFires? && !a.NotifySelector?
    ensures c in Next(w, a).sels && Remembered(steps + [a], Next(w, a), c)
  {
    IdsSnoc(steps, a, c);
    LooksSnoc(steps, a, c);
    assert Remembered(steps, w, c);
    OtherKeeps(w, a, c);
  }

  lemma OtherKeeps(w: World, a: Step, c: nat)
    requires Enabled(w, a) && c in w.sels && !a.RunPending? && !a.PromiseFires? && !a.NotifySelector?
    ensures c in Next(w, a).sels
    ensures var s, s' := w.sels[c], Next(w, a).sels[c];
      && s'.notified == s.notified && s'.checkedFirst == s.checkedFirst
      && (s'.closure == s.closure || (s.closure.Checked? && s'.closure.Ended?))
  {
  }

  lemma PendingFollows(steps: seq<Step>, w: World, id: nat, c: nat)
    requires Follows(steps, w) && Sound(w) && c in w.sels
    ensures Remembered(steps + [RunPending(id)], Next(w, RunPending(id)), c)
  {
    var a := RunPending(id);
    IdsSnoc(steps, a, c);
    LooksSnoc(steps, a, c);
    assert Remembered(steps, w, c) && SoundAlone(w.sels[c]) && SoundShared(w, c);
    if id in w.pending {
      var d := w.pending[id];
      assert Remembered(steps, w, d);
      assert w.sels[d].closure == Scheduled(id);
    }
  }

  /**
   The selector's cancelled entry of a selection whose closure has run and whose cancellation was announced: it
   stays for good exactly when the schedule runs the closure before the announcement.
   */
  lemma CancelledEntryRemainsIff(steps: seq<Step>, c: nat)
    requires Legal(START, steps) && c in Run(START, steps).sels && NotifySelector(c) in steps
    requires Run(START, steps).sels[c].closure.Ended? || Run(START, steps).sels[c].closure.Checked?
    ensures c in Run(START, steps).cancelled <==> LooksBeforeNotice(steps, c)
  {
    EveryRunFollows(steps);
    assert Remembered(steps, Run(START, steps), c) && SoundShared(Run(START, steps), c);
  }

  /**
   An interleaving that leaves the entry behind: the cancellation wins between the closure's check and its
   Complete.
   */
  lemma CancelledEntryCanRemain() returns (steps: seq<Step>)
    ensures Legal(START, steps) && 0 in Run(START, steps).sels
    ensures Run(START, steps).sels[0].closure == Ended && 0 in Run(START, steps).cancelled
  {
    var w := World(map[0 := Selection(false, Some(7), Chosen(7), Nobody, Checked, 0, 0, false, true)],
                   map[7 := 0], {}, {}, map[], 1, false);
    steps := CancelAfterCheck(w);
    steps := CheckWithoutCancel(w, steps);
  }

  lemma CheckWithoutCancel(w: World, rest: seq<Step>) returns (steps: seq<Step>)
    requires w == World(map[0 := Selection(false, Some(7), Chosen(7), Nobody, Checked, 0, 0, false, true)],
                        map[7 := 0], {}, {}, map[], 1, false)
    requires Legal(w, rest)
    ensures Legal(START, steps) && Run(START, steps) == Run(w, rest)
  {
    var w1 := World(map[0 := FRESH], map[], {}, {}, map[], 0, false);
    var w2 := World(map[0 := FRESH.(chooser := Recorded(7))], map[7 := 0], {}, {}, map[], 0, false);
    var ready := FRESH.(chooser := Chosen(7), finishFn := Some(7));
    var w3 := World(map[0 := ready], map[7 := 0], {}, {}, map[], 0, false);
    var w4 := World(map[0 := ready.(closure := Scheduled(0))], map[7 := 0], {}, {}, map[0 := 0], 1, false);
    assert Next(w4, RunPending(0)) == w by {
      assert map[0 := 0] - {0} == map[];
      assert Next(w4, RunPending(0)).sels == w.sels;
    }
    steps := Cons(w4, RunPending(0), rest);
    assert Next(w3, PromiseFires(0)) == w4;
    steps := Cons(w3, PromiseFires(0), steps);
    assert Next(w2, SetFinish(0)) == w3;
    steps := Cons(w2, SetFinish(0), steps);
    assert Next(w1, Record(0, 7)) == w2;
    steps := Cons(w1, Record(0, 7), steps);
    assert Next(START, Choose(0)) == w1;
    steps := Cons(START, Choose(0), steps);
  }

  lemma CancelAfterCheck(w: World) returns (steps: seq<Step>)
    requires w == World(map[0 := Selection(false, Some(7), Chosen(7), Nobody, Checked, 0, 0, false, true)],
                        map[7 := 0], {}, {}, map[], 1, false)
    ensures Legal(w, steps) && 0 in Run(w, steps).sels
    ensures Run(w, steps).sels[0].closure == Ended && 0 in Run(w, steps).cancelled
  {
    var s := w.sels[0];
    var w1 := w.(unwrapped := {0});
    var w2 := w1.(sels := map[0 := s.(done := true, winner := Cancel(Some(7), 0))]);
    var w3 := w1.(sels := map[0 := s.(done := true, winner := Cancel(Some(7), 1))]);
    steps := FinishCancel(w3);
    assert Next(w2, WinnerCalls(0)) == w3;
    steps := Cons(w2, WinnerCalls(0), steps);
    assert Next(w1, TryCancel(0)) == w2;
    steps := Cons(w1, TryCancel(0), steps);
    assert Next(w, Unwrap(7)) == w1;
    steps := Cons(w, Unwrap(7), steps);
  }

  lemma FinishCancel(w: World) returns (steps: seq<Step>)
    requires w == World(map[0 := Selection(true, Some(7), Chosen(7), Cancel(Some(7), 1), Checked, 0, 0, false, true)],
                        map[7 := 0], {0}, {}, map[], 1, false)
    ensures Legal(w, steps) && 0 in Run(w, steps).sels
    ensures Run(w, steps).sels[0].closure == Ended && 0 in Run(w, steps).cancelled
  {
    var freed := w.sels[0].(winner := Cancel(Some(7), 2), frees := 1);
    var w1 := w.(sels := map[0 := freed], table := map[]);
    var w2 := w1.(sels := map[0 := freed.(notified := true)], cancelled := {0});
    var w3 := w2.(sels := map[0 := freed.(notified := true, closure := Ended)]);
    assert Next(w2, TryComplete(0)) == w3;
    steps := Cons(w2, TryComplete(0), []);
    assert Next(w1, NotifySelector(0)) == w2;
    steps := Cons(w1, NotifySelector(0), steps);
    assert Next(w, WinnerFinishes(0)) == w1 by { assert w.table - {7} == map[]; }
    steps := Cons(w, WinnerFinishes(0), steps);
  }

  // ---------------------------------------------------------------------------------------------
  // Which selection a handle reaches

  /** The selection last recorded under a token. */
  function LastRecorded(steps: seq<Step>, t: nat): Option<nat> {
    if steps == [] then None
    else
      var a := steps[|steps| - 1];
      if a.Record? && a.token == t then Some(a.c) else LastRecorded(steps[..|steps| - 1], t)
  }

  ghost predicate TableFollows(steps: seq<Step>, w: World) {
    forall t | t in w.table :: LastRecorded(steps, t) == Some(w.table[t])
  }

  lemma TableStep(w: World, a: Step, t: nat)
    requires Enabled(w, a) && t in Next(w, a).table
    ensures if a.Record? && a.token == t then Next(w, a).table[t] == a.c
            else t in w.table && Next(w, a).table[t] == w.table[t]
  {
  }

  lemma {:induction false} EveryTableFollows(steps: seq<Step>)
    requires Legal(START, steps)
    ensures TableFollows(steps, Run(START, steps))
    decreases |steps|
  {
    if steps != [] {
      var before, a := steps[..|steps| - 1], steps[|steps| - 1];
      assert steps == before + [a];
      RunSnoc(START, before, a);
      EveryTableFollows(before);
      forall t | t in Run(START, steps).table ensures LastRecorded(steps, t) == Some(Run(START, steps).table[t]) {
        TableStep(Run(START, before), a, t);
      }
    }
  }

  /**
   The handle that choose-host returned for c, looked up by a later cancellation: it reaches c as long as c has not
   freed it, afterwards never c, and it reaches a different selection exactly when the token is in use again and the
   schedule recorded another selection under it since.
   */
  lemma HandleReachesIff(steps: seq<Step>, c: nat, t: nat)
    requires Legal(START, steps) && c in Run(START, steps).sels && Run(START, steps).sels[c].chooser == Chosen(t)
    ensures var w := Run(START, steps);
      && (w.sels[c].frees == 0 <==> t in w.table && w.table[t] == c)
      && (t in w.table && w.table[t] != c <==> t in w.table && LastRecorded(steps, t) != Some(c))
      && (t in w.table ==> LastRecorded(steps, t).Some?)
      && Next(w, Unwrap(t)).unwrapped == w.unwrapped + (if t in w.table then {LastRecorded(steps, t).value} else {})
  {
    RunSound(START, steps);
    EveryTableFollows(steps);
    assert SoundAlone(Run(START, steps).sels[c]) && SoundShared(Run(START, steps), c);
  }

  /**
   An interleaving in which cancelling through a handle cancels another selection: selection 0 completes before its
   SetFinishFn, so its token is freed before choose-host returns it, and selection 1 is given the same token.
   */
  lemma HandleCanReachAnother() returns (steps: seq<Step>)
    ensures Legal(START, steps) && {0, 1} <= Run(START, steps).sels.Keys
    ensures Run(START, steps).sels[0].chooser == Chosen(7) && Run(START, steps).sels[1].winner.Cancel?
    ensures Unwrap(7) in steps && TryCancel(0) !in steps
  {
    var w := World(map[0 := GONE], map[], {}, {}, map[], 1, false);
    steps := ReuseToken(w);
    steps := FreeBeforeReturn(w, steps);
  }

  lemma ReuseToken(w: World) returns (steps: seq<Step>)
    requires w == World(map[0 := GONE], map[], {}, {}, map[], 1, false)
    ensures steps == [Choose(1), Record(1, 7), SetFinish(1), Unwrap(7), TryCancel(1)]
    ensures Legal(w, steps) && {0, 1} <= Run(w, steps).sels.Keys
    ensures Run(w, steps).sels[0].chooser == Chosen(7) && Run(w, steps).sels[1].winner.Cancel?
  {
    var w1 := w.(sels := map[0 := GONE, 1 := FRESH]);
    var w2 := w.(sels := map[0 := GONE, 1 := FRESH.(chooser := Recorded(7))], table := map[7 := 1]);
    var w3 := w2.(sels := map[0 := GONE, 1 := FRESH.(chooser := Chosen(7), finishFn := Some(7))]);
    var w4 := w3.(unwrapped := {1});
    assert Next(w4, TryCancel(1)).sels[0] == GONE;
    steps := Cons(w4, TryCancel(1), []);
    assert Next(w3, Unwrap(7)) == w4;
    steps := Cons(w3, Unwrap(7), steps);
    assert Next(w2, SetFinish(1)) == w3;
    steps := Cons(w2, SetFinish(1), steps);
    assert Next(w1, Record(1, 7)) == w2;
    steps := Cons(w1, Record(1, 7), steps);
    assert Next(w, Choose(1)) == w1;
    steps := Cons(w, Choose(1), steps);
  }

  const GONE := FRESH.(done := true, winner := Complete(None, 0), chooser := Chosen(7), frees := 1,
                       closure := Ended, checkedFirst := true)
  const LOOKED := FRESH.(chooser := Recorded(7), closure := Checked, checkedFirst := true)

  lemma FreeBeforeReturn(w: World, rest: seq<Step>) returns (steps: seq<Step>)
    requires w == World(map[0 := GONE], map[], {}, {}, map[], 1, false) && Legal(w, rest)
    ensures Legal(START, steps) && Run(START, steps) == Run(w, rest)
    ensures forall a | a in rest :: a in steps
    ensures TryCancel(0) !in rest ==> TryCancel(0) !in steps
  {
    var w4 := World(map[0 := LOOKED], map[7 := 0], {}, {}, map[], 1, false);
    var late := LateFree(w, w4, rest);
    steps := CheckBeforeFinish(w4, late);
  }

  lemma LateFree(w: World, w4: World, rest: seq<Step>) returns (steps: seq<Step>)
    requires w == World(map[0 := GONE], map[], {}, {}, map[], 1, false) && Legal(w, rest)
    requires w4 == World(map[0 := LOOKED], map[7 := 0], {}, {}, map[], 1, false)
    ensures steps == [TryComplete(0), SetFinish(0), LateFinish(0)] + rest
    ensures Legal(w4, steps) && Run(w4, steps) == Run(w, rest)
  {
    var done := LOOKED.(done := true, winner := Complete(None, 0), closure := Ended);
    var w5 := World(map[0 := done], map[7 := 0], {}, {}, map[], 1, false);
    var w6 := World(map[0 := done.(chooser := FinishDue(7))], map[7 := 0], {}, {}, map[], 1, false);
    assert Next(w6, LateFinish(0)) == w by { assert map[7 := 0] - {7} == map[]; }
    steps := Cons(w6, LateFinish(0), rest);
    assert Next(w5, SetFinish(0)) == w6;
    steps := Cons(w5, SetFinish(0), steps);
    assert Next(w4, TryComplete(0)) == w5;
    steps := Cons(w4, TryComplete(0), steps);
  }

  lemma CheckBeforeFinish(w4: World, rest: seq<Step>) returns (steps: seq<Step>)
    requires w4 == World(map[0 := LOOKED], map[7 := 0], {}, {}, map[], 1, false) && Legal(w4, rest)
    ensures steps == [Choose(0), Record(0, 7), PromiseFires(0), RunPending(0)] + rest
    ensures Legal(START, steps) && Run(START, steps) == Run(w4, rest)
  {
    var s2 := FRESH.(chooser := Recorded(7));
    var w1 := World(map[0 := FRESH], map[], {}, {}, map[], 0, false);
    var w2 := World(map[0 := s2], map[7 := 0], {}, {}, map[], 0, false);
    var w3 := World(map[0 := s2.(closure := Scheduled(0))], map[7 := 0], {}, {}, map[0 := 0], 1, false);
    assert Next(w3, RunPending(0)) == w4 by { assert map[0 := 0] - {0} == map[]; }
    steps := Cons(w3, RunPending(0), rest);
    assert Next(w2, PromiseFires(0)) == w3;
    steps := Cons(w2, PromiseFires(0), steps);
    assert Next(w1, Record(0, 7)) == w2;
    steps := Cons(w1, Record(0, 7), steps);
    assert Next(START, Choose(0)) == w1;
    steps := Cons(START, Choose(0), steps);
  }

  lemma Cons(w: World, a: Step, rest: seq<Step>) returns (steps: seq<Step>)
    requires Enabled(w, a) && Legal(Next(w, a), rest)
    ensures steps == [a] + rest && Legal(w, steps) && Run(w, steps) == Run(Next(w, a), rest)
  {
    steps := [a] + rest;
    assert steps[1..] == rest;
  }
}
