/**
 The refresh loop of up/host_refresh_loop.go over every interleaving of its ticker goroutine, callers of
 RefreshOnce, scheduled closures on the main thread, and Stop. Each step is one critical section of mu.
 */
module RefreshLoops {
  import opened Common
  import opened HostSets
  import opened HostSetObject

  /** A scheduled apply: from the ticker or from RefreshOnce. */
  datatype Closure = FromTicker(snap: Snapshot) | FromOnce(snap: Snapshot)

  /** The ticker goroutine: waiting, holding a fetched snapshot, between claiming and scheduling, or gone. */
  datatype Ticker = Idle | Fetched(snap: Snapshot) | Claimed(snap: Snapshot) | Exited

  datatype Stopper = Running | Closed | Joined | Returned

  /** A reported event, with the pointers Envoy handed out and took back for it. */
  datatype Report = Report(added: nat, removed: nat, kept: nat, size: nat, handedOut: nat, takenBack: nat, changed: nat)

  datatype Loop = Loop(
    pending: bool, closed: bool, ticker: Ticker, queue: seq<Closure>, stop: Stopper, hosts: Hosts, reports: seq<Report>)

  const NEW := Loop(false, false, Idle, [], Running, EMPTY, [])

  datatype Step =
    | Fetch(snap: Snapshot)
    | Claim
    | Schedule
    | RefreshOnce(snap: Snapshot)
    | RunClosure(i: nat, given: map<Key, HostPtr>)
    | CloseUnderLock
    | JoinTicker
    | StopReturns

  ghost predicate Enabled(l: Loop, a: Step) {
    match a
    case Fetch(_) => l.ticker.Idle?
    case Claim => l.ticker.Fetched?
    case Schedule => l.ticker.Claimed?
    case RefreshOnce(_) => true
    case RunClosure(i, given) => i < |l.queue| && (l.closed || FreshPointers(l.hosts, l.queue[i].snap, given))
    case CloseUnderLock => l.stop.Running?
    case JoinTicker => l.stop.Closed? && l.ticker.Idle?
    case StopReturns => l.stop.Joined?
  }

  ghost function ReportOf(h: Hosts, h': Hosts, snap: Snapshot): Report {
    Report(|AddedKeys(h.published, h'.published, snap)|, |RemovedKeys(h.published, h'.published)|,
           |KeptKeys(h.published, h'.published, snap)|, |snap|, |h'.live - h.live|, |h.live - h'.live|,
           |ChangedKeys(h.published, h'.published)|)
  }

  function Without(queue: seq<Closure>, i: nat): seq<Closure>
    requires i < |queue|
  {
    queue[..i] + queue[i + 1..]
  }

  ghost function Next(l: Loop, a: Step): Loop
    requires Enabled(l, a)
  {
    match a
    case Fetch(snap) => l.(ticker := Fetched(snap))
    case Claim =>
      if l.pending || l.closed then l.(ticker := Idle) else l.(pending := true, ticker := Claimed(l.ticker.snap))
    case Schedule => l.(queue := l.queue + [FromTicker(l.ticker.snap)], ticker := Idle)
    case RefreshOnce(snap) => l.(queue := l.queue + [FromOnce(snap)])
    case RunClosure(i, given) =>
      var c := l.queue[i];
      var l1 := l.(queue := Without(l.queue, i), pending := if c.FromTicker? then false else l.pending);
      if l.closed then l1
      else
        var h' := AfterApply(l.hosts, c.snap, given);
        l1.(hosts := h', reports := l1.reports + [ReportOf(l.hosts, h', c.snap)])
    case CloseUnderLock => l.(closed := true, stop := Closed)
    case JoinTicker => l.(ticker := Exited, stop := Joined)
    case StopReturns => l.(stop := Returned)
  }

  ghost predicate Legal(l: Loop, steps: seq<Step>)
    decreases |steps|
  {
    steps == [] || (Enabled(l, steps[0]) && Legal(Next(l, steps[0]), steps[1..]))
  }

  ghost function Run(l: Loop, steps: seq<Step>): Loop
    requires Legal(l, steps)
    decreases |steps|
  {
    if steps == [] then l else Run(Next(l, steps[0]), steps[1..])
  }

  /** Ticker applies that are scheduled and have not run. */
  function TickerApplies(queue: seq<Closure>): nat {
    if queue == [] then 0 else (if queue[0].FromTicker? then 1 else 0) + TickerApplies(queue[1..])
  }

  lemma {:induction false} TickerAppliesConcat(a: seq<Closure>, b: seq<Closure>)
    ensures TickerApplies(a + b) == TickerApplies(a) + TickerApplies(b)
  {
    if a == [] {
      assert a + b == b;
    } else {
      assert (a + b)[1..] == a[1..] + b;
      TickerAppliesConcat(a[1..], b);
    }
  }

  lemma TickerAppliesWithout(queue: seq<Closure>, i: nat)
    requires i < |queue|
    ensures TickerApplies(Without(queue, i)) + (if queue[i].FromTicker? then 1 else 0) == TickerApplies(queue)
  {
    var before, rest, after := queue[..i], queue[i..], queue[i + 1..];
    assert queue == before + rest;
    assert rest[1..] == after;
    TickerAppliesConcat(before, rest);
    TickerAppliesConcat(before, after);
  }

  /** The numbers of one report balance. */
  predicate Balanced(r: Report) {
    r.added + r.kept == r.size && r.added == r.handedOut && r.takenBack == r.removed + r.changed
  }

  ghost predicate Sound(l: Loop) {
    && Exact(l.hosts)
    && TickerApplies(l.queue) + (if l.ticker.Claimed? then 1 else 0) == (if l.pending then 1 else 0)
    && (l.stop.Running? <==> !l.closed)
    && (l.stop.Joined? || l.stop.Returned? ==> l.ticker.Exited?)
    && (forall r | r in l.reports :: Balanced(r))
  }

  lemma StepSound(l: Loop, a: Step)
    requires Sound(l) && Enabled(l, a)
    ensures Sound(Next(l, a))
    ensures l.closed ==> Next(l, a).closed && Next(l, a).hosts == l.hosts && Next(l, a).reports == l.reports
  {
    match a
    case Schedule => TickerAppliesConcat(l.queue, [FromTicker(l.ticker.snap)]);
    case RefreshOnce(snap) => TickerAppliesConcat(l.queue, [FromOnce(snap)]);
    case RunClosure(i, given) => RunClosureSound(l, i, given);
    case _ =>
  }

  lemma ReportBalances(h: Hosts, snap: Snapshot, given: map<Key, HostPtr>)
    requires Exact(h) && FreshPointers(h, snap, given)
    ensures Exact(AfterApply(h, snap, given)) && Balanced(ReportOf(h, AfterApply(h, snap, given), snap))
  {
    ApplyKeepsExact(h, snap, given);
    CountsAddUp(h, snap, given);
  }

  lemma RunClosureSound(l: Loop, i: nat, given: map<Key, HostPtr>)
    requires Sound(l) && Enabled(l, RunClosure(i, given))
    ensures var l' := Next(l, RunClosure(i, given));
      Sound(l') && (l.closed ==> l'.closed && l'.hosts == l.hosts && l'.reports == l.reports)
  {
    var snap := l.queue[i].snap;
    if l.closed {
      TickerAppliesWithout(l.queue, i);
    } else {
      ReportBalances(l.hosts, snap, given);
      AppliedSound(l, i, AfterApply(l.hosts, snap, given), ReportOf(l.hosts, AfterApply(l.hosts, snap, given), snap));
    }
  }

  lemma AppliedSound(l: Loop, i: nat, h: Hosts, r: Report)
    requires Sound(l) && i < |l.queue| && Exact(h) && Balanced(r)
    ensures Sound(l.(queue := Without(l.queue, i), pending := if l.queue[i].FromTicker? then false else l.pending,
                     hosts := h, reports := l.reports + [r]))
  {
    TickerAppliesWithout(l.queue, i);
  }

  lemma {:induction false} RunSound(l: Loop, steps: seq<Step>)
    requires Sound(l) && Legal(l, steps)
    ensures Sound(Run(l, steps))
    ensures l.closed ==> Run(l, steps).closed && Run(l, steps).hosts == l.hosts && Run(l, steps).reports == l.reports
    decreases |steps|
  {
    if steps != [] {
      StepSound(l, steps[0]);
      RunSound(Next(l, steps[0]), steps[1..]);
    }
  }

  /**
   Every run of the loop: the published map never dangles and never leaks, at most one ticker apply is
   outstanding and pending says so, and every report balances.
   */
  lemma EveryRun(steps: seq<Step>)
    requires Legal(NEW, steps)
    ensures var l := Run(NEW, steps);
      && Exact(l.hosts)
      && TickerApplies(l.queue) <= 1
      && (TickerApplies(l.queue) == 1 ==> l.pending)
      && (l.pending && !l.ticker.Claimed? ==> TickerApplies(l.queue) == 1)
      && (forall r | r in l.reports :: Balanced(r))
  {
    assert Sound(NEW);
    RunSound(NEW, steps);
  }

  /**
   After Stop has taken the lock once, and so also after it returned, nothing is applied or reported any more,
   whatever is still scheduled; and once it returned the ticker goroutine is gone.
   */
  lemma NothingAppliesAfterStop(steps: seq<Step>, later: seq<Step>)
    requires Legal(NEW, steps) && !Run(NEW, steps).stop.Running? && Legal(Run(NEW, steps), later)
    ensures var l := Run(NEW, steps);
      && Run(l, later).hosts == l.hosts && Run(l, later).reports == l.reports
      && (l.stop.Returned? ==> l.ticker.Exited?)
  {
    assert Sound(NEW);
    RunSound(NEW, steps);
    RunSound(Run(NEW, steps), later);
  }

  function Scheduled(steps: seq<Step>): nat {
    if steps == [] then 0
    else (if steps[0].Schedule? || steps[0].RefreshOnce? then 1 else 0) + Scheduled(steps[1..])
  }

  function Ran(steps: seq<Step>): nat {
    if steps == [] then 0 else (if steps[0].RunClosure? then 1 else 0) + Ran(steps[1..])
  }

  lemma {:induction false} QueueCounts(l: Loop, steps: seq<Step>)
    requires Legal(l, steps)
    ensures |Run(l, steps).queue| + Ran(steps) == |l.queue| + Scheduled(steps)
    decreases |steps|
  {
    if steps != [] { QueueCounts(Next(l, steps[0]), steps[1..]); }
  }

  /**
   Stop does not wait for what is already scheduled. When it has returned, the queue is empty exactly when every
   scheduled closure of the schedule has run, and a ticker apply is still outstanding exactly when pending is set.
   */
  lemma StopHasWaitedIff(steps: seq<Step>)
    requires Legal(NEW, steps) && Run(NEW, steps).stop.Returned?
    ensures var l := Run(NEW, steps);
      && (l.queue == [] <==> Ran(steps) == Scheduled(steps))
      && (TickerApplies(l.queue) == 1 <==> l.pending)
      && (TickerApplies(l.queue) == 0 <==> !l.pending)
  {
    assert Sound(NEW);
    RunSound(NEW, steps);
    QueueCounts(NEW, steps);
  }

  /** A run in which Stop returns while the apply it should have waited for is still scheduled. */
  lemma StopReturnsTooEarly(snap: Snapshot)
    ensures var steps := [Fetch(snap), Claim, Schedule, CloseUnderLock, JoinTicker, StopReturns];
      && Legal(NEW, steps)
      && Run(NEW, steps).stop.Returned? && Run(NEW, steps).pending
      && Run(NEW, steps).queue == [FromTicker(snap)]
  {
    var l1 := NEW.(ticker := Fetched(snap));
    var l2 := NEW.(pending := true, ticker := Claimed(snap));
    var l3 := NEW.(pending := true, queue := [FromTicker(snap)]);
    var l4 := l3.(closed := true, stop := Closed);
    var l5 := l4.(ticker := Exited, stop := Joined);
    ConsRun(l5, StopReturns, []);
    ConsRun(l4, JoinTicker, [StopReturns]);
    ConsRun(l3, CloseUnderLock, [JoinTicker, StopReturns]);
    ConsRun(l2, Schedule, [CloseUnderLock, JoinTicker, StopReturns]);
    ConsRun(l1, Claim, [Schedule, CloseUnderLock, JoinTicker, StopReturns]);
    ConsRun(NEW, Fetch(snap), [Claim, Schedule, CloseUnderLock, JoinTicker, StopReturns]);
  }

  lemma ConsRun(l: Loop, a: Step, rest: seq<Step>)
    requires Enabled(l, a) && Legal(Next(l, a), rest)
    ensures Legal(l, [a] + rest) && Run(l, [a] + rest) == Run(Next(l, a), rest)
  {
    assert ([a] + rest)[1..] == rest;
  }

  // ---------------------------------------------------------------------------------------------
  // What is applied, read off the schedule

  /** The snapshot of the ticker's last fetch. */
  function LastFetched(steps: seq<Step>): Option<Snapshot> {
    if steps == [] then None
    else
      var a := steps[|steps| - 1];
      if a.Fetch? then Some(a.snap) else LastFetched(steps[..|steps| - 1])
  }

  /** The snapshots scheduled and not yet run: those of RefreshOnce calls, and the fetched ones the ticker scheduled. */
  function Ledger(steps: seq<Step>): seq<Snapshot> {
    if steps == [] then []
    else
      var before := steps[..|steps| - 1];
      LedgerNext(Ledger(before), LastFetched(before), steps[|steps| - 1])
  }

  function LedgerNext(l: seq<Snapshot>, fetched: Option<Snapshot>, a: Step): seq<Snapshot> {
    match a
    case RefreshOnce(snap) => l + [snap]
    case Schedule => if fetched.Some? then l + [fetched.value] else l
    case RunClosure(i, _) => if i < |l| then l[..i] + l[i + 1..] else l
    case _ => l
  }

  /** The closures that ran before the loop was closed, in order: their snapshots and the pointers Envoy gave. */
  function AppliedCalls(steps: seq<Step>): seq<Application> {
    if steps == [] then []
    else
      var before, a := steps[..|steps| - 1], steps[|steps| - 1];
      if a.RunClosure? && CloseUnderLock !in before && a.i < |Ledger(before)|
      then AppliedCalls(before) + [Application(Ledger(before)[a.i], a.given)]
      else AppliedCalls(before)
  }

  lemma {:induction false} RunSnoc(l: Loop, steps: seq<Step>, a: Step)
    requires Legal(l, steps + [a])
    ensures Legal(l, steps) && Enabled(Run(l, steps), a) && Run(l, steps + [a]) == Next(Run(l, steps), a)
    decreases |steps|
  {
    if steps == [] {
      assert steps + [a] == [a];
      assert [a][1..] == [];
    } else {
      assert (steps + [a])[1..] == steps[1..] + [a];
      RunSnoc(Next(l, steps[0]), steps[1..], a);
    }
  }

  lemma {:induction false} ApplySnoc(h: Hosts, calls: seq<Application>, a: Application)
    requires LegalApplies(h, calls) && FreshPointers(ApplyAll(h, calls), a.snap, a.ptrs)
    ensures LegalApplies(h, calls + [a])
    ensures ApplyAll(h, calls + [a]) == AfterApply(ApplyAll(h, calls), a.snap, a.ptrs)
    decreases |calls|
  {
    if calls == [] {
      assert calls + [a] == [a];
      assert [a][1..] == [];
    } else {
      assert (calls + [a])[1..] == calls[1..] + [a];
      ApplySnoc(AfterApply(h, calls[0].snap, calls[0].ptrs), calls[1..], a);
    }
  }

  predicate Carries(queue: seq<Closure>, ledger: seq<Snapshot>) {
    |queue| == |ledger| && forall j | 0 <= j < |queue| :: queue[j].snap == ledger[j]
  }

  lemma CarriesWithout(queue: seq<Closure>, ledger: seq<Snapshot>, i: nat)
    requires Carries(queue, ledger) && i < |queue|
    ensures Carries(Without(queue, i), ledger[..i] + ledger[i + 1..])
  {
  }

  lemma CarriesMore(queue: seq<Closure>, ledger: seq<Snapshot>, c: Closure)
    requires Carries(queue, ledger)
    ensures Carries(queue + [c], ledger + [c.snap])
  {
  }

  /** The queue and the ticker hold what the schedule says. */
  ghost predicate Follows(steps: seq<Step>, l: Loop) {
    && Carries(l.queue, Ledger(steps))
    && (l.ticker.Fetched? || l.ticker.Claimed? ==> LastFetched(steps) == Some(l.ticker.snap))
    && (l.closed <==> CloseUnderLock in steps)
  }

  lemma LedgerSnoc(steps: seq<Step>, a: Step)
    ensures LastFetched(steps + [a]) == if a.Fetch? then Some(a.snap) else LastFetched(steps)
    ensures Ledger(steps + [a]) == LedgerNext(Ledger(steps), LastFetched(steps), a)
    ensures AppliedCalls(steps + [a]) ==
      if a.RunClosure? && CloseUnderLock !in steps && a.i < |Ledger(steps)|
      then AppliedCalls(steps) + [Application(Ledger(steps)[a.i], a.given)] else AppliedCalls(steps)
  {
    assert (steps + [a])[..|steps|] == steps;
  }

  lemma StepFollows(steps: seq<Step>, l: Loop, a: Step)
    requires Follows(steps, l) && Enabled(l, a)
    ensures Follows(steps + [a], Next(l, a))
  {
    LedgerSnoc(steps, a);
    match a
    case Schedule => CarriesMore(l.queue, Ledger(steps), FromTicker(l.ticker.snap));
    case RefreshOnce(snap) => CarriesMore(l.queue, Ledger(steps), FromOnce(snap));
    case RunClosure(i, given) => ClosureFollows(steps, l, i, given);
    case _ =>
  }

  lemma ClosureFollows(steps: seq<Step>, l: Loop, i: nat, given: map<Key, HostPtr>)
    requires Follows(steps, l) && Enabled(l, RunClosure(i, given))
    ensures Follows(steps + [RunClosure(i, given)], Next(l, RunClosure(i, given)))
  {
    LedgerSnoc(steps, RunClosure(i, given));
    CarriesWithout(l.queue, Ledger(steps), i);
    var l' := Next(l, RunClosure(i, given));
    assert l'.queue == Without(l.queue, i) && l'.ticker == l.ticker && l'.closed == l.closed;
  }

  lemma {:induction false} EveryRunFollows(steps: seq<Step>)
    requires Legal(NEW, steps)
    ensures Follows(steps, Run(NEW, steps))
    ensures LegalApplies(EMPTY, AppliedCalls(steps)) && Run(NEW, steps).hosts == ApplyAll(EMPTY, AppliedCalls(steps))
    decreases |steps|
  {
    if steps != [] {
      var before, a := steps[..|steps| - 1], steps[|steps| - 1];
      assert steps == before + [a];
      RunSnoc(NEW, before, a);
      EveryRunFollows(before);
      StepFollows(before, Run(NEW, before), a);
      LedgerSnoc(before, a);
      if a.RunClosure? && CloseUnderLock !in before {
        ApplySnoc(EMPTY, AppliedCalls(before), Application(Ledger(before)[a.i], a.given));
      }
    }
  }

  /**
   Over every run the hosts are the result of applying, one after the other, the snapshots of the RefreshOnce calls
   and scheduled fetches whose closures ran while the loop was open.
   */
  lemma EveryRunApplies(steps: seq<Step>)
    requires Legal(NEW, steps)
    ensures LegalApplies(EMPTY, AppliedCalls(steps)) && Run(NEW, steps).hosts == ApplyAll(EMPTY, AppliedCalls(steps))
  {
    EveryRunFollows(steps);
  }

  /** No snapshot of the schedule has an empty metadata value. */
  ghost predicate PlainSteps(steps: seq<Step>) {
    forall a | a in steps :: (a.Fetch? || a.RefreshOnce? ==> PlainSnapshot(a.snap))
  }

  lemma {:induction false} PlainLedger(steps: seq<Step>)
    requires PlainSteps(steps)
    ensures LastFetched(steps).Some? ==> PlainSnapshot(LastFetched(steps).value)
    ensures forall j | 0 <= j < |Ledger(steps)| :: PlainSnapshot(Ledger(steps)[j])
    ensures forall j | 0 <= j < |AppliedCalls(steps)| :: PlainSnapshot(AppliedCalls(steps)[j].snap)
    decreases |steps|
  {
    if steps != [] {
      var before, a := steps[..|steps| - 1], steps[|steps| - 1];
      assert a in steps && forall b | b in before :: b in steps;
      PlainLedger(before);
    }
  }

  /**
   Right after a closure ran on an open loop, the published keys are those of the snapshot it was scheduled with; and
   the published specs too, when no snapshot of the run has an empty metadata value.
   */
  lemma ClosurePublishes(steps: seq<Step>, i: nat, given: map<Key, HostPtr>)
    requires Legal(NEW, steps + [RunClosure(i, given)]) && CloseUnderLock !in steps
    ensures i < |Ledger(steps)|
    ensures Run(NEW, steps + [RunClosure(i, given)]).hosts.published.Keys == Ledger(steps)[i].Keys
    ensures PlainSteps(steps) ==> Publishes(Run(NEW, steps + [RunClosure(i, given)]).hosts, Ledger(steps)[i])
  {
    var all := steps + [RunClosure(i, given)];
    RunSnoc(NEW, steps, RunClosure(i, given));
    EveryRunFollows(steps);
    EveryRunFollows(all);
    LedgerSnoc(steps, RunClosure(i, given));
    EveryApply(EMPTY, AppliedCalls(all));
    if PlainSteps(steps) { PlainClosurePublishes(steps, i, given); }
  }

  lemma PlainClosurePublishes(steps: seq<Step>, i: nat, given: map<Key, HostPtr>)
    requires Legal(NEW, steps + [RunClosure(i, given)]) && CloseUnderLock !in steps && PlainSteps(steps)
    requires i < |Ledger(steps)|
    ensures Publishes(Run(NEW, steps + [RunClosure(i, given)]).hosts, Ledger(steps)[i])
  {
    var all := steps + [RunClosure(i, given)];
    EveryRunApplies(all);
    LedgerSnoc(steps, RunClosure(i, given));
    PlainSnoc(steps, RunClosure(i, given));
    PlainLedger(all);
    EveryPlainApply(EMPTY, AppliedCalls(all));
  }

  lemma PlainSnoc(steps: seq<Step>, a: Step)
    requires PlainSteps(steps) && !a.Fetch? && !a.RefreshOnce?
    ensures PlainSteps(steps + [a])
  {
  }

  /** In particular a RefreshOnce whose closure runs next publishes its own snapshot. */
  lemma RefreshOncePublishes(steps: seq<Step>, snap: Snapshot, given: map<Key, HostPtr>)
    requires CloseUnderLock !in steps
    requires Legal(NEW, steps + [RefreshOnce(snap)] + [RunClosure(|Ledger(steps)|, given)])
    ensures var l := Run(NEW, steps + [RefreshOnce(snap)] + [RunClosure(|Ledger(steps)|, given)]);
      l.hosts.published.Keys == snap.Keys && (PlainSteps(steps + [RefreshOnce(snap)]) ==> Publishes(l.hosts, snap))
  {
    LedgerSnoc(steps, RefreshOnce(snap));
    ClosurePublishes(steps + [RefreshOnce(snap)], |Ledger(steps)|, given);
  }

  // ---------------------------------------------------------------------------------------------
  // The object: its critical sections

  class HostRefreshLoop {
    const hosts: HostSet
    var pending: bool
    var closed: bool
    var events: seq<(nat, nat, nat)>

    constructor (s: HostSet)
      ensures hosts == s && !pending && !closed && events == []
    {
      hosts := s;
      pending, closed, events := false, false, [];
    }

    /** The coalescing check of fetchAndSchedule: true when the caller must schedule an apply. */
    method ClaimApply() returns (schedule: bool)
      modifies `pending
      ensures schedule == (!old(pending) && !closed) && pending == (old(pending) || schedule)
    {
      if pending || closed { return false; }
      pending := true;
      schedule := true;
    }

    /** The scheduled closure: apply and report the counts, unless the loop was closed. */
    method RunApply(fromTicker: bool, snap: Snapshot) returns (ghost given: map<Key, HostPtr>)
      requires Exact(hosts.State())
      modifies this, hosts, hosts.handle
      ensures Exact(hosts.State()) && closed == old(closed)
      ensures pending == (old(pending) && !fromTicker)
      ensures closed ==> hosts.State() == old(hosts.State()) && events == old(events)
      ensures !closed ==>
        && FreshPointers(old(hosts.State()), snap, given)
        && hosts.State() == AfterApply(old(hosts.State()), snap, given)
        && var r := ReportOf(old(hosts.State()), hosts.State(), snap);
           Balanced(r) && events == old(events) + [(r.added, r.removed, r.kept)]
    {
      given := map[];
      if fromTicker { pending := false; }
      if closed { return; }
      ghost var h := hosts.State();
      var prev := hosts.current;
      given := hosts.Apply(snap);
      CountsAddUp(h, snap, given);
      var added, removed, kept := DiffCounts(prev, hosts.current, snap);
      events := events + [(added, removed, kept)];
    }

    method Close()
      modifies `closed
      ensures closed
    {
      closed := true;
    }
  }
}
