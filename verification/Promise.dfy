/**
 StreamPromise of up/stream_promise.go, stepped lock by lock so that Resolve, OnResolve and cancel interleave
 freely. Callbacks run outside every lock, so a callback that registers, cancels or resolves again is just
 another interleaving.
 */
module Promise {
  import opened Common

  /**
   early lists the callbacks registered before resolution, in order; next counts those that Resolve has
   already taken from its drained list. canceled is the entries' canceled flag. calling is the entry taken and
   not yet called, inline the callbacks that OnResolve is about to call itself. withdrawn, late and fired
   record history: cancels that took effect, late registrations, and the calls made.
   */
  datatype Promise<T> = Promise(
    resolved: bool, value: Option<T>, early: seq<nat>, next: nat, canceled: set<nat>, calling: Option<nat>,
    inline: set<nat>, withdrawn: set<nat>, late: set<nat>, fired: seq<(nat, T)>)

  function New<T>(): Promise<T> {
    Promise(false, None, [], 0, {}, None, {}, {}, {}, [])
  }

  datatype Step<T> =
    | Register(id: nat)
    | CallInline(id: nat)
    | Resolve(v: T)
    | TakeNext
    | CallTaken
    | Cancel(id: nat)

  /** Registrations are fresh entries; the resolver takes one entry at a time. */
  predicate Enabled<T>(p: Promise<T>, a: Step<T>) {
    match a
    case Register(id) => id !in p.early && id !in p.late
    case CallInline(id) => id in p.inline && p.resolved && p.value.Some?
    case Resolve(_) => true
    case TakeNext => p.resolved && p.calling.None? && p.next < |p.early|
    case CallTaken => p.calling.Some? && p.value.Some?
    case Cancel(id) => id in p.early || id in p.late
  }

  function Next<T>(p: Promise<T>, a: Step<T>): Promise<T>
    requires Enabled(p, a)
  {
    match a
    case Register(id) =>
      if p.resolved then p.(inline := p.inline + {id}, late := p.late + {id})
      else p.(early := p.early + [id])
    case CallInline(id) => p.(inline := p.inline - {id}, fired := p.fired + [(id, p.value.value)])
    case Resolve(v) => if p.resolved then p else p.(resolved := true, value := Some(v))
    case TakeNext =>
      var id := p.early[p.next];
      if id in p.canceled then p.(next := p.next + 1)
      else p.(next := p.next + 1, canceled := p.canceled + {id}, calling := Some(id))
    case CallTaken => p.(calling := None, fired := p.fired + [(p.calling.value, p.value.value)])
    case Cancel(id) =>
      if id in p.late then p
      else p.(canceled := p.canceled + {id},
              withdrawn := if id in p.canceled then p.withdrawn else p.withdrawn + {id})
  }

  ghost predicate Legal<T>(p: Promise<T>, steps: seq<Step<T>>)
    decreases |steps|
  {
    steps == [] || (Enabled(p, steps[0]) && Legal(Next(p, steps[0]), steps[1..]))
  }

  ghost function Run<T>(p: Promise<T>, steps: seq<Step<T>>): Promise<T>
    requires Legal(p, steps)
    decreases |steps|
  {
    if steps == [] then p else Run(Next(p, steps[0]), steps[1..])
  }

  // ---------------------------------------------------------------------------------------------
  // What every interleaving keeps

  /** Registrations without the withdrawn ones, in registration order. */
  function Kept(ids: seq<nat>, withdrawn: set<nat>): seq<nat> {
    if ids == [] then []
    else Kept(ids[..|ids| - 1], withdrawn) + (if ids[|ids| - 1] in withdrawn then [] else [ids[|ids| - 1]])
  }

  /** The calls made for early registrations, in call order. */
  function EarlyCalls<T>(fired: seq<(nat, T)>, late: set<nat>): seq<nat> {
    if fired == [] then []
    else EarlyCalls(fired[..|fired| - 1], late) + (if fired[|fired| - 1].0 in late then [] else [fired[|fired| - 1].0])
  }

  function Times<T>(fired: seq<(nat, T)>, id: nat): nat {
    if fired == [] then 0
    else Times(fired[..|fired| - 1], id) + (if fired[|fired| - 1].0 == id then 1 else 0)
  }

  predicate Distinct(ids: seq<nat>) {
    forall i, j | 0 <= i < j < |ids| :: ids[i] != ids[j]
  }

  ghost predicate Valid<T(!new)>(p: Promise<T>) {
    && p.next <= |p.early| && Distinct(p.early)
    && (p.resolved <==> p.value.Some?)
    && (!p.resolved ==> p.next == 0 && p.late == {} && p.fired == [])
    && (forall id | id in p.early :: id !in p.late)
    && p.inline <= p.late
    && p.withdrawn <= p.canceled && (forall id | id in p.canceled :: id in p.early)
    && (forall i | 0 <= i < p.next :: p.early[i] in p.canceled)
    && (forall i | p.next <= i < |p.early| :: p.early[i] in p.canceled <==> p.early[i] in p.withdrawn)
    && (p.calling.Some? ==> p.calling.value in p.early)
    && (forall x | x in p.fired :: Some(x.1) == p.value && (x.0 in p.early || x.0 in p.late))
    && Kept(p.early[..p.next], p.withdrawn)
      == EarlyCalls(p.fired, p.late) + (if p.calling.Some? then [p.calling.value] else [])
    && (forall id | id in p.late :: Times(p.fired, id) == if id in p.inline then 0 else 1)
  }

  lemma {:induction false} KeptIgnores(ids: seq<nat>, withdrawn: set<nat>, id: nat)
    requires id !in ids
    ensures Kept(ids, withdrawn + {id}) == Kept(ids, withdrawn)
  {
    if ids != [] { KeptIgnores(ids[..|ids| - 1], withdrawn, id); }
  }

  lemma {:induction false} EarlyIgnoresNewLate<T>(fired: seq<(nat, T)>, late: set<nat>, id: nat)
    requires forall x | x in fired :: x.0 != id
    ensures EarlyCalls(fired, late + {id}) == EarlyCalls(fired, late) && Times(fired, id) == 0
  {
    if fired != [] { EarlyIgnoresNewLate(fired[..|fired| - 1], late, id); }
  }

  lemma FiredGrows<T>(fired: seq<(nat, T)>, x: (nat, T), late: set<nat>, id: nat)
    ensures EarlyCalls(fired + [x], late) == EarlyCalls(fired, late) + (if x.0 in late then [] else [x.0])
    ensures Times(fired + [x], id) == Times(fired, id) + if x.0 == id then 1 else 0
  {
    assert (fired + [x])[..|fired|] == fired;
  }

  lemma StepKeepsValid<T(!new)>(p: Promise<T>, a: Step<T>)
    requires Valid(p) && Enabled(p, a)
    ensures Valid(Next(p, a))
    ensures p.resolved ==> Next(p, a).resolved && Next(p, a).value == p.value
    ensures !p.resolved ==> Next(p, a).value == if a.Resolve? then Some(a.v) else None
  {
    match a
    case Register(id) => RegisterKeepsValid(p, id);
    case CallInline(id) => InlineKeepsValid(p, id);
    case Resolve(v) =>
    case TakeNext => TakeKeepsValid(p);
    case CallTaken => TakenKeepsValid(p);
    case Cancel(id) => CancelKeepsValid(p, id);
  }

  lemma RegisterKeepsValid<T(!new)>(p: Promise<T>, id: nat)
    requires Valid(p) && Enabled(p, Register(id))
    ensures Valid(Next(p, Register(id)))
  {
    if p.resolved {
      EarlyIgnoresNewLate(p.fired, p.late, id);
    } else {
      assert Next(p, Register(id)).early[..0] == p.early[..0];
    }
  }

  lemma InlineKeepsValid<T(!new)>(p: Promise<T>, id: nat)
    requires Valid(p) && Enabled(p, CallInline(id))
    ensures Valid(Next(p, CallInline(id)))
  {
    forall k | k in p.late
      ensures Times(p.fired + [(id, p.value.value)], k) == Times(p.fired, k) + if k == id then 1 else 0
    {
      FiredGrows(p.fired, (id, p.value.value), p.late, k);
    }
    FiredGrows(p.fired, (id, p.value.value), p.late, id);
  }

  lemma TakenKeepsValid<T(!new)>(p: Promise<T>)
    requires Valid(p) && Enabled(p, CallTaken)
    ensures Valid(Next(p, CallTaken))
  {
    var x := (p.calling.value, p.value.value);
    forall k | k in p.late ensures Times(p.fired + [x], k) == Times(p.fired, k) {
      FiredGrows(p.fired, x, p.late, k);
    }
    FiredGrows(p.fired, x, p.late, 0);
  }

  lemma CancelKeepsValid<T(!new)>(p: Promise<T>, id: nat)
    requires Valid(p) && Enabled(p, Cancel(id))
    ensures Valid(Next(p, Cancel(id)))
  {
    if id !in p.late && id !in p.canceled {
      assert id !in p.early[..p.next];
      KeptIgnores(p.early[..p.next], p.withdrawn, id);
    }
  }

  lemma TakeKeepsValid<T(!new)>(p: Promise<T>)
    requires Valid(p) && Enabled(p, TakeNext)
    ensures Valid(Next(p, TakeNext))
  {
    TakeKeepsOrder(p);
  }

  lemma TakeKeepsOrder<T(!new)>(p: Promise<T>)
    requires Valid(p) && Enabled(p, TakeNext)
    ensures var p' := Next(p, TakeNext);
      Kept(p'.early[..p'.next], p'.withdrawn)
        == EarlyCalls(p'.fired, p'.late) + (if p'.calling.Some? then [p'.calling.value] else [])
  {
    var ids := p.early[..p.next + 1];
    assert ids[..|ids| - 1] == p.early[..p.next];
    assert ids[|ids| - 1] == p.early[p.next];
  }

  /** The argument of the first Resolve of a run, if there is one. */
  function FirstResolve<T>(steps: seq<Step<T>>): Option<T> {
    if steps == [] then None else if steps[0].Resolve? then Some(steps[0].v) else FirstResolve(steps[1..])
  }

  lemma {:induction false} RunKeepsValid<T(!new)>(p: Promise<T>, steps: seq<Step<T>>)
    requires Valid(p) && Legal(p, steps)
    ensures Valid(Run(p, steps))
    ensures Run(p, steps).value == if p.resolved then p.value else FirstResolve(steps)
    decreases |steps|
  {
    if steps != [] {
      StepKeepsValid(p, steps[0]);
      RunKeepsValid(Next(p, steps[0]), steps[1..]);
    }
  }

  lemma NewIsValid<T(!new)>()
    ensures Valid(New<T>())
  {
  }

  lemma {:induction false} KeptOnce(ids: seq<nat>, withdrawn: set<nat>)
    requires Distinct(ids)
    ensures Distinct(Kept(ids, withdrawn))
    ensures forall id :: id in Kept(ids, withdrawn) <==> id in ids && id !in withdrawn
  {
    if ids != [] {
      var n := |ids| - 1;
      KeptOnce(ids[..n], withdrawn);
      assert ids[n] !in ids[..n];
      assert forall id :: id in ids <==> id in ids[..n] || id == ids[n];
    }
  }

  lemma {:induction false} TimesIsMembership<T>(fired: seq<(nat, T)>, late: set<nat>, id: nat)
    requires id !in late && Distinct(EarlyCalls(fired, late))
    ensures Times(fired, id) == if id in EarlyCalls(fired, late) then 1 else 0
  {
    if fired != [] {
      var n := |fired| - 1;
      var before, last := EarlyCalls(fired[..n], late), fired[n].0;
      assert Distinct(before) by {
        forall i, j | 0 <= i < j < |before| ensures before[i] != before[j] {
          assert EarlyCalls(fired, late)[i] != EarlyCalls(fired, late)[j];
        }
      }
      TimesIsMembership(fired[..n], late, id);
      if last !in late {
        assert EarlyCalls(fired, late)[|before|] == last;
        forall i | 0 <= i < |before| ensures before[i] != last {
          assert EarlyCalls(fired, late)[i] != EarlyCalls(fired, late)[|before|];
        }
      }
    }
  }

  /**
   For every interleaving: the first Resolve fixes the value, every callback runs at most once and with that
   value, a callback whose cancel took effect never runs, and callbacks registered before resolution run in
   registration order.
   */
  lemma EveryRun<T(!new)>(steps: seq<Step<T>>)
    requires Legal(New<T>(), steps)
    ensures var p := Run(New<T>(), steps);
      && p.value == FirstResolve(steps) && p.resolved == p.value.Some?
      && (forall x | x in p.fired :: Some(x.1) == p.value)
      && (forall id :: Times(p.fired, id) <= 1)
      && p.next <= |p.early| && EarlyCalls(p.fired, p.late) <= Kept(p.early[..p.next], p.withdrawn)
      && (forall id | id in p.withdrawn :: Times(p.fired, id) == 0)
  {
    NewIsValid<T>();
    RunKeepsValid(New<T>(), steps);
    ValidCalls(Run(New<T>(), steps));
  }

  lemma ValidCalls<T(!new)>(p: Promise<T>)
    requires Valid(p)
    ensures forall id :: Times(p.fired, id) <= 1 && (id in p.withdrawn ==> Times(p.fired, id) == 0)
    ensures EarlyCalls(p.fired, p.late) <= Kept(p.early[..p.next], p.withdrawn)
    ensures forall id | id in p.early && p.calling.None? ::
      Times(p.fired, id) == if id in p.early[..p.next] && id !in p.withdrawn then 1 else 0
  {
    var kept := Kept(p.early[..p.next], p.withdrawn);
    KeptOnce(p.early[..p.next], p.withdrawn);
    var calls := EarlyCalls(p.fired, p.late);
    assert calls == kept[..|calls|];
    forall id
      ensures Times(p.fired, id) <= 1 && (id in p.withdrawn ==> Times(p.fired, id) == 0)
      ensures id in p.early && p.calling.None?
        ==> Times(p.fired, id) == if id in p.early[..p.next] && id !in p.withdrawn then 1 else 0
    {
      if id !in p.late {
        TimesIsMembership(p.fired, p.late, id);
        assert id in calls ==> id in kept;
      }
    }
  }

  /** Resolve has been through its list and no inline call is due. */
  predicate Drained<T>(p: Promise<T>) {
    p.resolved && p.next == |p.early| && p.calling.None? && p.inline == {}
  }

  /**
   Once the promise is resolved and drained, every registration has run exactly once unless it was withdrawn first.
   */
  lemma EveryDrainedRun<T(!new)>(steps: seq<Step<T>>)
    requires Legal(New<T>(), steps) && Drained(Run(New<T>(), steps))
    ensures var p := Run(New<T>(), steps);
      && (forall id | id in p.early || id in p.late :: Times(p.fired, id) == if id in p.withdrawn then 0 else 1)
      && EarlyCalls(p.fired, p.late) == Kept(p.early, p.withdrawn)
  {
    NewIsValid<T>();
    RunKeepsValid(New<T>(), steps);
    var p := Run(New<T>(), steps);
    assert p.early[..p.next] == p.early;
    ValidCalls(p);
  }

  // ---------------------------------------------------------------------------------------------
  // The object

  /** One round of Resolve's loop: an entry is taken, and called unless it was canceled. */
  function Round<T>(p: Promise<T>): Promise<T>
    requires p.resolved && p.value.Some? && p.calling.None? && p.next < |p.early|
  {
    var p1 := Next(p, TakeNext);
    if p1.calling.Some? then Next(p1, CallTaken) else p1
  }

  /** Resolve's loop over its drained list when nothing else runs in between. */
  function DrainAll<T>(p: Promise<T>): Promise<T>
    requires p.resolved && p.value.Some? && p.calling.None? && p.next <= |p.early|
    decreases |p.early| - p.next
  {
    if p.next == |p.early| then p else DrainAll(Round(p))
  }

  /** The calls owed to a list of registrations: those not canceled, in order, with the value. */
  function Firings<T>(ids: seq<nat>, canceled: set<nat>, v: T): seq<(nat, T)> {
    if ids == [] then [] else (if ids[0] in canceled then [] else [(ids[0], v)]) + Firings(ids[1..], canceled, v)
  }

  lemma {:induction false} FiringsIgnore<T>(ids: seq<nat>, canceled: set<nat>, id: nat, v: T)
    requires id !in ids
    ensures Firings(ids, canceled + {id}, v) == Firings(ids, canceled, v)
  {
    if ids != [] { FiringsIgnore(ids[1..], canceled, id, v); }
  }

  /** Draining calls every remaining registration that is not canceled, once, in order, with the value. */
  lemma {:induction false} DrainAllFires<T>(p: Promise<T>)
    requires p.resolved && p.value.Some? && p.calling.None? && p.next <= |p.early| && Distinct(p.early)
    ensures DrainAll(p).fired == p.fired + Firings(p.early[p.next..], p.canceled, p.value.value)
    decreases |p.early| - p.next
  {
    if p.next < |p.early| {
      RoundFires(p);
      DrainAllFires(Round(p));
    }
  }

  lemma RoundFires<T>(p: Promise<T>)
    requires p.resolved && p.value.Some? && p.calling.None? && p.next < |p.early| && Distinct(p.early)
    ensures var q, v := Round(p), p.value.value;
      && q == p.(next := p.next + 1, canceled := q.canceled, fired := q.fired)
      && q.fired + Firings(p.early[q.next..], q.canceled, v) == p.fired + Firings(p.early[p.next..], p.canceled, v)
  {
    var id, rest, v := p.early[p.next], p.early[p.next + 1..], p.value.value;
    assert p.early[p.next..] == [id] + rest;
    assert id !in rest;
    FiringsIgnore(rest, p.canceled, id, v);
    if id !in p.canceled {
      assert (p.fired + [(id, v)]) + Firings(rest, p.canceled, v)
        == p.fired + ([(id, v)] + Firings(rest, p.canceled, v));
    }
  }

  class StreamPromise<T> {
    var resolved: bool
    var value: Option<T>
    var callbacks: seq<nat>
    var canceled: set<nat>
    var fired: seq<(nat, T)>
    /** Registrations made after resolution: their cancel function is empty. */
    var late: set<nat>
    ghost var early: seq<nat>
    ghost var next: nat
    ghost var withdrawn: set<nat>

    /** Between calls nothing is half done. */
    ghost function State(): Promise<T>
      reads this
    {
      Promise(resolved, value, early, next, canceled, None, {}, withdrawn, late, fired)
    }

    ghost predicate Consistent()
      reads this
    {
      && (resolved <==> value.Some?) && Distinct(early)
      && callbacks == (if resolved then [] else early)
      && next == (if resolved then |early| else 0)
    }

    constructor ()
      ensures Consistent() && State() == New<T>()
    {
      resolved, value, callbacks, canceled, fired := false, None, [], {}, [];
      early, next, withdrawn, late := [], 0, {}, {};
    }

    /** The first call publishes v and runs the callbacks that are not canceled, in registration order. */
    method Resolve(v: T) returns (first: bool)
      requires Consistent()
      modifies this
      ensures Consistent()
      ensures first <==> !old(resolved)
      ensures State() == if first then DrainAll(Next(old(State()), Step.Resolve(v))) else old(State())
      ensures fired == old(fired) + if first then Firings(old(callbacks), old(canceled), v) else []
    {
      if resolved { return false; }
      resolved, value := true, Some(v);
      var cbs := callbacks;
      callbacks := [];
      ghost var published := State();
      assert early[0..] == early;
      DrainAllFires(published);
      for i := 0 to |cbs|
        invariant resolved && value == Some(v) && callbacks == [] && cbs == early && next == i && Distinct(early)
        invariant DrainAll(State()) == DrainAll(published)
      {
        CallNext(cbs[i], v);
      }
      first := true;
    }

    /** One round of Resolve's loop. */
    method CallNext(id: nat, v: T)
      requires resolved && value == Some(v) && next < |early| && id == early[next]
      modifies `canceled, `fired, `next
      ensures State() == Round(old(State())) && next == old(next) + 1
    {
      if id !in canceled {
        canceled := canceled + {id};
        fired := fired + [(id, v)];
      }
      next := next + 1;
    }

    /** Registers id, or runs it at once when the promise is resolved. */
    method OnResolve(id: nat)
      requires Consistent() && Enabled(State(), Register(id))
      modifies this
      ensures Consistent()
      ensures State() == if old(resolved)
                         then Next(Next(old(State()), Register(id)), CallInline(id))
                           else Next(old(State()), Register(id))
    {
      if resolved {
        fired := fired + [(id, value.value)];
        late := late + {id};
        assert State().inline + {id} - {id} == State().inline;
        return;
      }
      callbacks := callbacks + [id];
      early := early + [id];
    }

    /** The cancel function of a registration. */
    method CancelCallback(id: nat)
      requires Consistent() && Enabled(State(), Cancel(id))
      modifies this
      ensures Consistent() && State() == Next(old(State()), Cancel(id))
    {
      if id in late { return; }
      if id !in canceled { withdrawn := withdrawn + {id}; }
      canceled := canceled + {id};
    }

    method Result() returns (r: Option<T>)
      requires Consistent()
      ensures r == State().value && (r.Some? <==> State().resolved)
    {
      r := value;
    }
  }
}
