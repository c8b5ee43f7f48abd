/**
 The all-settled fan-out of up/writer.go: one slot per request, a countdown of unsettled slots,
 and one call of the user's callback when the countdown reaches zero.
 */
module AllSettled {
  import opened Common

  /** One response slot: either Envoy refused the callout, or it answered (possibly with an error result). */
  datatype Response = InitFailed(code: nat) | Answered(result: nat, body: Bytes)

  /** How Envoy treats one request while the batch is being launched. */
  datatype Launch = Rejected(code: nat) | Sync(result: nat, body: Bytes) | Later

  datatype Delivery = Delivery(slot: nat, response: Response)

  /** The fields of allSettledBatch; None marks a slot nothing has settled yet. */
  datatype Batch = Batch(responses: seq<Option<Response>>, remaining: int, flushed: bool)

  /** One argument list the user's callback was called with. */
  type Vector = seq<Option<Response>>

  /** allSettledBatch.finish up to the point where it decides to call the user's callback. */
  function Settle(b: Batch, i: nat, r: Response): (res: (Batch, seq<Vector>))
    requires i < |b.responses|
    ensures |res.0.responses| == |b.responses|
  {
    if b.flushed then (b, [])
    else
      var settled := Batch(b.responses[i := Some(r)], b.remaining - 1, false);
      if settled.remaining > 0 then (settled, [])
      else (settled.(flushed := true), [settled.responses])
  }

  function Immediate(l: Launch): Option<Response> {
    match l
    case Rejected(code) => Some(InitFailed(code))
    case Sync(result, body) => Some(Answered(result, body))
    case Later => None
  }

  function Unsettled(n: nat): Batch {
    Batch(seq(n, _ => None), n, false)
  }

  /** The launch loop over requests i, i+1, ..., with every slot Envoy settles inside HttpCallout. */
  function LaunchFrom(b: Batch, slots: seq<Launch>, i: nat): (res: (Batch, seq<Vector>))
    requires i <= |slots| == |b.responses|
    ensures |res.0.responses| == |b.responses|
    decreases |slots| - i
  {
    if i == |slots| then (b, [])
    else
      match Immediate(slots[i])
      case None => LaunchFrom(b, slots, i + 1)
      case Some(r) =>
        var (b1, calls) := Settle(b, i, r);
        var (b2, more) := LaunchFrom(b1, slots, i + 1);
        (b2, calls + more)
  }

  function LaunchAll(slots: seq<Launch>): (Batch, seq<Vector>) {
    LaunchFrom(Unsettled(|slots|), slots, 0)
  }

  /** Later deliveries, in the order Envoy makes them. */
  function Play(b: Batch, ds: seq<Delivery>): (Batch, seq<Vector>)
    requires forall d | d in ds :: d.slot < |b.responses|
    decreases |ds|
  {
    if ds == [] then (b, [])
    else
      var (b1, calls) := Settle(b, ds[0].slot, ds[0].response);
      var (b2, more) := Play(b1, ds[1..]);
      (b2, calls + more)
  }

  /** Envoy delivers to a slot at most once, and only to slots it did not settle while launching. */
  ghost predicate Legal(b: Batch, ds: seq<Delivery>) {
    && (forall d | d in ds :: d.slot < |b.responses| && b.responses[d.slot].None?)
    && (forall i, j | 0 <= i < j < |ds| :: ds[i].slot != ds[j].slot)
  }

  function CountNone(v: Vector): nat {
    if v == [] then 0 else (if v[0].None? then 1 else 0) + CountNone(v[1..])
  }

  /** The countdown always equals the number of unsettled slots, and the once flag says that it is over. */
  ghost predicate Valid(b: Batch) {
    && b.remaining == CountNone(b.responses)
    && (b.flushed <==> b.remaining == 0)
  }

  lemma {:induction false} CountNoneUpdate(v: Vector, i: nat, r: Response)
    requires i < |v| && v[i].None?
    ensures CountNone(v[i := Some(r)]) == CountNone(v) - 1
  {
    if i == 0 {
      assert v[i := Some(r)][1..] == v[1..];
    } else {
      assert v[i := Some(r)][1..] == v[1..][i - 1 := Some(r)];
      CountNoneUpdate(v[1..], i - 1, r);
    }
  }

  lemma {:induction false} CountNoneZero(v: Vector)
    ensures CountNone(v) == 0 <==> forall i | 0 <= i < |v| :: v[i].Some?
  {
    if v != [] {
      CountNoneZero(v[1..]);
      assert forall i | 1 <= i < |v| :: v[i] == v[1..][i - 1];
      if CountNone(v) == 0 {
        forall i | 0 <= i < |v| ensures v[i].Some? {
          if i > 0 { assert v[1..][i - 1].Some?; }
        }
      }
      if forall i | 0 <= i < |v| :: v[i].Some? {
        assert forall i | 0 <= i < |v[1..]| :: v[1..][i] == v[i + 1];
      }
    }
  }

  lemma {:induction false} CountNoneFresh(n: nat)
    ensures CountNone(Unsettled(n).responses) == n
  {
    if n > 0 {
      assert Unsettled(n).responses[1..] == Unsettled(n - 1).responses;
      CountNoneFresh(n - 1);
    }
  }

  /** Settling an unsettled slot keeps the countdown right, and calls the user exactly when it was the last one. */
  lemma SettleKeepsValid(b: Batch, i: nat, r: Response)
    requires Valid(b) && i < |b.responses| && b.responses[i].None?
    ensures var (b', calls) := Settle(b, i, r);
      && Valid(b')
      && b'.responses == b.responses[i := Some(r)]
      && calls == (if b'.flushed then [b'.responses] else [])
      && (b'.flushed <==> forall k | 0 <= k < |b'.responses| :: b'.responses[k].Some?)
  {
    CountNoneZero(b.responses);
    CountNoneUpdate(b.responses, i, r);
    CountNoneZero(b.responses[i := Some(r)]);
  }

  lemma {:induction false} LaunchFacts(b: Batch, slots: seq<Launch>, i: nat)
    requires i <= |slots| == |b.responses| && Valid(b) && !b.flushed
    requires forall k | i <= k < |slots| :: b.responses[k].None?
    ensures var (b', calls) := LaunchFrom(b, slots, i);
      && Valid(b')
      && calls == (if b'.flushed then [b'.responses] else [])
      && (forall k | 0 <= k < |slots| :: b'.responses[k] == if k < i then b.responses[k] else Immediate(slots[k]))
    decreases |slots| - i
  {
    if i < |slots| {
      match Immediate(slots[i])
      case None =>
        LaunchFacts(b, slots, i + 1);
      case Some(r) =>
        SettleKeepsValid(b, i, r);
        var (b1, calls) := Settle(b, i, r);
        assert forall k | i < k < |slots| :: b1.responses[k] == b.responses[k];
        if b1.flushed {
          FlushedLaunchIsSilent(b1, slots, i + 1);
        } else {
          LaunchFacts(b1, slots, i + 1);
        }
    }
  }

  lemma {:induction false} FlushedLaunchIsSilent(b: Batch, slots: seq<Launch>, i: nat)
    requires i <= |slots| == |b.responses| && b.flushed
    ensures LaunchFrom(b, slots, i).0 == b && LaunchFrom(b, slots, i).1 == []
    decreases |slots| - i
  {
    if i < |slots| { FlushedLaunchIsSilent(b, slots, i + 1); }
  }

  lemma {:induction false} PlayFacts(b: Batch, ds: seq<Delivery>)
    requires Valid(b) && Legal(b, ds)
    ensures var (b', calls) := Play(b, ds);
      && Valid(b') && |b'.responses| == |b.responses|
      && calls == (if b'.flushed && !b.flushed then [b'.responses] else [])
      && (forall k | 0 <= k < |b.responses| && b.responses[k].Some? :: b'.responses[k] == b.responses[k])
      && (forall d | d in ds :: b'.responses[d.slot] == Some(d.response))
      && (forall k | 0 <= k < |b.responses| && b'.responses[k].Some? ::
            b.responses[k].Some? || exists d | d in ds :: d.slot == k)
    decreases |ds|
  {
    if ds != [] {
      var d := ds[0];
      SettleKeepsValid(b, d.slot, d.response);
      var (b1, calls) := Settle(b, d.slot, d.response);
      CountNoneZero(b.responses);
      assert Legal(b1, ds[1..]) by {
        forall e | e in ds[1..] ensures e.slot < |b1.responses| && b1.responses[e.slot].None? {
          var j :| 1 <= j < |ds| && ds[j] == e;
          assert ds[0].slot != ds[j].slot;
        }
      }
      PlayFacts(b1, ds[1..]);
      CountNoneZero(b1.responses);
    }
  }

  /**
   The promise of HTTPCalloutAllSettled. Whatever Envoy settles while launching and in whatever order it
   delivers the rest, the callback has not run while a slot is unsettled, and it has run exactly once when
   all are, with slot i holding what happened to request i.
   */
  lemma CalledOnceWithEverySlot(slots: seq<Launch>, ds: seq<Delivery>)
    requires slots != [] && Legal(LaunchAll(slots).0, ds)
    ensures var (b, early) := LaunchAll(slots);
      var (b', late) := Play(b, ds);
      && |b'.responses| == |slots|
      && ((exists k | 0 <= k < |slots| :: b'.responses[k].None?) ==> early + late == [])
      && ((forall k | 0 <= k < |slots| :: b'.responses[k].Some?) ==> early + late == [b'.responses])
      && (forall k | 0 <= k < |slots| && slots[k].Rejected? :: b'.responses[k] == Some(InitFailed(slots[k].code)))
      && (forall k | 0 <= k < |slots| && slots[k].Sync? ::
            b'.responses[k] == Some(Answered(slots[k].result, slots[k].body)))
      && (forall d | d in ds :: slots[d.slot] == Later && b'.responses[d.slot] == Some(d.response))
      && (forall k | 0 <= k < |slots| && slots[k] == Later ::
            b'.responses[k].Some? <==> exists d | d in ds :: d.slot == k)
  {
    CountNoneFresh(|slots|);
    LaunchFacts(Unsettled(|slots|), slots, 0);
    var (b, early) := LaunchAll(slots);
    assert forall k | 0 <= k < |slots| :: b.responses[k] == Immediate(slots[k]);
    PlayFacts(b, ds);
    var (b', late) := Play(b, ds);
    CountNoneZero(b'.responses);
    CountNoneZero(b.responses);
  }

  lemma SameVector(slots: seq<Launch>, ds: seq<Delivery>, es: seq<Delivery>)
    requires slots != [] && Legal(LaunchAll(slots).0, ds) && Legal(LaunchAll(slots).0, es)
    requires multiset(ds) == multiset(es)
    ensures Play(LaunchAll(slots).0, ds).0.responses == Play(LaunchAll(slots).0, es).0.responses
  {
    var v, u := Play(LaunchAll(slots).0, ds).0.responses, Play(LaunchAll(slots).0, es).0.responses;
    CalledOnceWithEverySlot(slots, ds);
    CalledOnceWithEverySlot(slots, es);
    SameMembers(ds, es);
    forall k | 0 <= k < |slots| ensures v[k] == u[k] {
      if slots[k] == Later && v[k].Some? {
        var d :| d in ds && d.slot == k;
      }
    }
  }

  lemma SameMembers(ds: seq<Delivery>, es: seq<Delivery>)
    requires multiset(ds) == multiset(es)
    ensures forall d :: d in ds <==> d in es
  {
    forall d ensures d in ds <==> d in es {
      assert d in ds <==> d in multiset(ds);
      assert d in es <==> d in multiset(es);
    }
  }

  lemma PlayCalls(slots: seq<Launch>, ds: seq<Delivery>)
    requires Legal(LaunchAll(slots).0, ds)
    requires slots != []
    ensures var b := LaunchAll(slots).0;
      Play(b, ds).1 == if Play(b, ds).0.flushed && !b.flushed then [Play(b, ds).0.responses] else []
    ensures Valid(Play(LaunchAll(slots).0, ds).0)
  {
    CountNoneFresh(|slots|);
    LaunchFacts(Unsettled(|slots|), slots, 0);
    PlayFacts(LaunchAll(slots).0, ds);
  }

  /** The vector handed to the callback does not depend on the order in which callouts complete. */
  lemma OrderIndependent(slots: seq<Launch>, ds: seq<Delivery>, es: seq<Delivery>)
    requires slots != [] && Legal(LaunchAll(slots).0, ds) && Legal(LaunchAll(slots).0, es)
    requires multiset(ds) == multiset(es)
    ensures var b := LaunchAll(slots).0;
      Play(b, ds).0.responses == Play(b, es).0.responses && Play(b, ds).1 == Play(b, es).1
  {
    SameVector(slots, ds, es);
    CalledOnceWithEverySlot(slots, ds);
    CalledOnceWithEverySlot(slots, es);
    PlayCalls(slots, ds);
    PlayCalls(slots, es);
  }

  /** The batch object itself, with its fields updated in place. */
  class AllSettledBatch {
    var responses: array<Option<Response>>
    var remaining: int
    var flushed: bool

    ghost function State(): Batch
      reads this, responses
    {
      Batch(responses[..], remaining, flushed)
    }

    constructor (n: nat)
      ensures State() == Unsettled(n) && fresh(responses)
    {
      responses := new Option<Response>[n](_ => None);
      remaining, flushed := n, false;
      new;
      assert responses[..] == Unsettled(n).responses;
    }

    /** Settles slot i; the result is the argument list of the callback if this call runs it. */
    method Finish(i: nat, resp: Response) returns (calls: seq<Vector>)
      requires i < responses.Length
      modifies this`remaining, this`flushed, responses
      ensures State() == Settle(old(State()), i, resp).0 && calls == Settle(old(State()), i, resp).1
    {
      if flushed { return []; }
      ghost var before := responses[..];
      responses[i] := Some(resp);
      assert responses[..] == before[i := Some(resp)];
      remaining := remaining - 1;
      if remaining > 0 { return []; }
      flushed := true;
      calls := [responses[..]];
    }
  }

  /** HTTPCalloutAllSettled's loop over a non-empty request list. */
  method LaunchBatch(slots: seq<Launch>) returns (b: AllSettledBatch, calls: seq<Vector>)
    ensures fresh(b) && fresh(b.responses)
    ensures b.State() == LaunchAll(slots).0 && calls == LaunchAll(slots).1
  {
    b := new AllSettledBatch(|slots|);
    calls := [];
    for i := 0 to |slots|
      invariant fresh(b) && fresh(b.responses) && b.responses.Length == |slots|
      invariant LaunchAll(slots).0 == LaunchFrom(b.State(), slots, i).0
      invariant LaunchAll(slots).1 == calls + LaunchFrom(b.State(), slots, i).1
    {
      match slots[i] {
        case Later =>
        case Sync(result, body) =>
          var more := b.Finish(i, Answered(result, body));
          calls := calls + more;
        case Rejected(code) =>
          var more := b.Finish(i, InitFailed(code));
          calls := calls + more;
      }
    }
  }
}
