/**
 The in-memory record store of examples/request-ui/sink/sink.go: a ring of record slots that answers queries
 as if it kept an append-only log and looked at its last entries.
 */
module MemStores {
  import opened Common
  import opened Rings

  /** fields are the seven searchable texts of a record. */
  datatype Record = Record(id: nat, timestamp: string, hasError: bool, fields: seq<string>)

  datatype Query = Query(search: string, since: int, errorsOnly: bool, limit: nat, ascending: bool)

  predicate Contains(s: string, t: string) {
    |t| <= |s| && (s[..|t|] == t || (s != [] && Contains(s[1..], t)))
  }

  /** recordMatchesSearch: some field contains the text, ignoring case. */
  predicate Matches(r: Record, q: string) {
    exists i | 0 <= i < |r.fields| :: Contains(Fold(r.fields[i]), Fold(q))
  }

  predicate Selected(r: Record, q: Query) {
    && !(q.since > 0 && r.id <= q.since)
    && !(q.errorsOnly && !r.hasError)
    && !(q.search != "" && !Matches(r, q.search))
  }

  function Filter(rs: seq<Record>, q: Query): seq<Record> {
    if rs == [] then [] else Filter(rs[..|rs| - 1], q) + (if Selected(rs[|rs| - 1], q) then [rs[|rs| - 1]] else [])
  }

  /** The answer to a query over a window of the log, oldest first. */
  function Answer(window: seq<Record>, q: Query): seq<Record> {
    First(if q.ascending then Filter(window, q) else Rev(Filter(window, q)), q.limit)
  }

  /** What insert stores: consecutive ids, and the current time where the record has none. */
  function Stamp(r: Record, id: nat, now: string): Record {
    r.(id := id, timestamp := if r.timestamp == "" then now else r.timestamp)
  }

  function StampAll(n: nat, batch: seq<Record>, now: string): seq<Record> {
    seq(|batch|, i requires 0 <= i < |batch| => Stamp(batch[i], n + i + 1, now))
  }

  // ---------------------------------------------------------------------------------------------
  // Slots

  lemma DivUnique(a: int, cap: nat, q: int, r: int)
    requires cap > 0 && 0 <= r < cap && a == q * cap + r
    ensures a % cap == r
  {
    var q', r' := a / cap, a % cap;
    assert (q - q') * cap == r' - r;
    assert (q' - q) * cap == r - r';
    if q > q' {
      Grows(q - q', cap);
    } else if q < q' {
      Grows(q' - q, cap);
    }
  }

  lemma Grows(k: nat, cap: nat)
    requires k >= 1
    ensures k * cap >= cap
  {
  }

  /** The slot of the i-th newest record, as query computes it from head. */
  lemma NewestSlot(n: nat, i: nat, cap: nat)
    requires cap > 0 && i < cap && i < n
    ensures (n % cap - 1 - i + cap) % cap == (n - 1 - i) % cap
  {
    var q, h := n / cap, n % cap;
    assert n == q * cap + h;
    if h >= i + 1 {
      DivUnique(n - 1 - i, cap, q, h - 1 - i);
      DivUnique(h - 1 - i + cap, cap, 1, h - 1 - i);
    } else {
      assert n - 1 - i == (q - 1) * cap + (h - 1 - i + cap);
      DivUnique(n - 1 - i, cap, q - 1, h - 1 - i + cap);
      DivUnique(h - 1 - i + cap, cap, 0, h - 1 - i + cap);
    }
  }

  /** Two positions less than cap apart use different slots. */
  lemma DifferentSlots(a: nat, b: nat, cap: nat)
    requires cap > 0 && a < b < a + cap
    ensures a % cap != b % cap
  {
    var q, h := a / cap, a % cap;
    assert a == q * cap + h;
    if h + (b - a) < cap {
      DivUnique(b, cap, q, h + (b - a));
    } else {
      assert b == (q + 1) * cap + (h + (b - a) - cap);
      DivUnique(b, cap, q + 1, h + (b - a) - cap);
    }
  }

  lemma NextHead(n: nat, cap: nat)
    requires cap > 0
    ensures (n % cap + 1) % cap == (n + 1) % cap
  {
    var q, h := n / cap, n % cap;
    assert n == q * cap + h;
    if h + 1 < cap {
      DivUnique(n + 1, cap, q, h + 1);
      DivUnique(h + 1, cap, 0, h + 1);
    } else {
      assert n + 1 == (q + 1) * cap + 0;
      DivUnique(n + 1, cap, q + 1, 0);
      DivUnique(h + 1, cap, 1, 0);
    }
  }

  // ---------------------------------------------------------------------------------------------
  // The store

  class MemStore {
    const ring: array<Option<Record>>
    var head: nat
    var size: nat
    var seqNo: nat
    /** Every record ever inserted. */
    ghost var log: seq<Record>

    ghost predicate Valid()
      reads this, ring
    {
      && ring.Length > 0
      && head == |log| % ring.Length
      && size == (if |log| < ring.Length then |log| else ring.Length)
      && seqNo == |log|
      && (forall i | 0 <= i < |log| :: log[i].id == i + 1)
      && (forall i | |log| - size <= i < |log| :: ring[i % ring.Length] == Some(log[i]))
    }

    constructor (capacity: int)
      ensures Valid() && log == [] && ring.Length == (if capacity <= 0 then 2000 else capacity) && fresh(ring)
    {
      var n: nat := if capacity <= 0 then 2000 else capacity;
      ring := new Option<Record>[n](_ => None);
      head, size, seqNo, log := 0, 0, 0, [];
    }

    method InsertOne(r: Record, now: string) returns (stored: Record)
      requires Valid()
      modifies this, ring
      ensures Valid() && stored == Stamp(r, |old(log)| + 1, now) && log == old(log) + [stored]
    {
      ghost var n := |log|;
      seqNo := seqNo + 1;
      stored := Stamp(r, seqNo, now);
      ring[head] := Some(stored);
      NextHead(n, ring.Length);
      head := (head + 1) % ring.Length;
      if size < ring.Length { size := size + 1; }
      log := log + [stored];
      forall i | |log| - size <= i < n ensures ring[i % ring.Length] == Some(log[i]) {
        DifferentSlots(i, n, ring.Length);
      }
    }

    /** Inserts a batch; the result is the batch with ids and timestamps. */
    method Insert(batch: seq<Record>, now: string) returns (out: seq<Record>)
      requires Valid()
      modifies this, ring
      ensures Valid() && out == StampAll(|old(log)|, batch, now) && log == old(log) + out
    {
      out := [];
      for i := 0 to |batch|
        invariant Valid() && out == StampAll(|old(log)|, batch, now)[..i] && log == old(log) + out
      {
        var stored := InsertOne(batch[i], now);
        out := out + [stored];
      }
    }

    /** The records held, newest first. */
    method Newest() returns (snap: seq<Record>)
      requires Valid()
      ensures snap == Rev(Last(log, ring.Length))
    {
      snap := [];
      for i := 0 to size
        invariant |snap| == i && forall k | 0 <= k < i :: snap[k] == log[|log| - 1 - k]
      {
        NewestSlot(|log|, i, ring.Length);
        var slot := ring[(head - 1 - i + ring.Length) % ring.Length];
        assert slot == Some(log[|log| - 1 - i]);
        if slot.Some? { snap := snap + [slot.value]; }
      }
      IsReversed(Last(log, ring.Length), snap);
    }

    /** A query answers as if the last records of the log were filtered, ordered and cut. */
    method RunQuery(q: Query) returns (out: seq<Record>)
      requires Valid()
      ensures out == Answer(Last(log, ring.Length), q)
    {
      var snap := Newest();
      ghost var window := Last(log, ring.Length);
      var filtered := Sift(snap, window, q);
      if q.ascending {
        RevTwice(Filter(window, q));
        filtered := Reversed(filtered);
      }
      out := if |filtered| > q.limit then filtered[..q.limit] else filtered;
    }
  }

  /** The filter loop, over the records newest first. */
  method Sift(snap: seq<Record>, ghost window: seq<Record>, q: Query) returns (filtered: seq<Record>)
    requires snap == Rev(window)
    ensures filtered == Rev(Filter(window, q))
  {
    filtered := [];
    for i := 0 to |snap|
      invariant filtered == Rev(Filter(window[|window| - i..], q))
    {
      FilterCons(window, |window| - i - 1, q);
      if Selected(snap[i], q) { filtered := filtered + [snap[i]]; }
    }
    assert window[0..] == window;
  }

  method Reversed(s: seq<Record>) returns (r: seq<Record>)
    ensures r == Rev(s)
  {
    var a := new Record[|s|](i requires 0 <= i < |s| => s[i]);
    assert a[0..a.Length] == s;
    ReverseInPlace(a, 0, a.Length);
    r := a[0..a.Length];
  }

  lemma {:induction false} FilterConcat(a: seq<Record>, b: seq<Record>, q: Query)
    ensures Filter(a + b, q) == Filter(a, q) + Filter(b, q)
  {
    if b == [] {
      assert a + b == a;
    } else {
      assert (a + b)[..|a + b| - 1] == a + b[..|b| - 1];
      FilterConcat(a, b[..|b| - 1], q);
    }
  }

  lemma FilterOne(r: Record, q: Query)
    ensures Filter([r], q) == if Selected(r, q) then [r] else []
  {
    assert [r][..0] == [];
  }

  lemma FilterCons(window: seq<Record>, i: nat, q: Query)
    requires i < |window|
    ensures Rev(Filter(window[i..], q))
      == Rev(Filter(window[i + 1..], q)) + (if Selected(window[i], q) then [window[i]] else [])
  {
    assert window[i..] == [window[i]] + window[i + 1..];
    FilterConcat([window[i]], window[i + 1..], q);
    FilterOne(window[i], q);
  }

  lemma RevTwice<T>(s: seq<T>)
    ensures Rev(Rev(s)) == s
  {
  }

  // ---------------------------------------------------------------------------------------------
  // What an answer holds

  /** A record passes the filters of a query, by its fields. */
  ghost predicate Passes(r: Record, q: Query) {
    && (q.since > 0 ==> r.id > q.since)
    && (q.errorsOnly ==> r.hasError)
    && (q.search != "" ==> exists i, j :: 0 <= i < |r.fields| && OccursAt(Fold(r.fields[i]), j, Fold(q.search)))
  }

  predicate OccursAt(s: string, j: nat, t: string) {
    j + |t| <= |s| && s[j..j + |t|] == t
  }

  lemma {:induction false} ContainsIff(s: string, t: string)
    ensures Contains(s, t) <==> exists j :: OccursAt(s, j, t)
  {
    if |t| <= |s| {
      if s[..|t|] == t {
        assert OccursAt(s, 0, t);
      } else if s != [] {
        ContainsIff(s[1..], t);
        if j: nat :| OccursAt(s[1..], j, t) {
          assert s[j + 1..j + 1 + |t|] == s[1..][j..j + |t|];
          assert OccursAt(s, j + 1, t);
        }
        if j: nat :| OccursAt(s, j, t) {
          assert j > 0;
          assert s[1..][j - 1..j - 1 + |t|] == s[j..j + |t|];
          assert OccursAt(s[1..], j - 1, t);
        }
      }
    }
  }

  lemma SelectedIff(r: Record, q: Query)
    ensures Selected(r, q) <==> Passes(r, q)
  {
    forall i | 0 <= i < |r.fields|
      ensures Contains(Fold(r.fields[i]), Fold(q.search)) <==> exists j ::
        OccursAt(Fold(r.fields[i]), j, Fold(q.search))
    {
      ContainsIff(Fold(r.fields[i]), Fold(q.search));
    }
  }

  /** Ids go up from record to record. */
  ghost predicate Ordered(rs: seq<Record>) {
    forall i, j | 0 <= i < j < |rs| :: rs[i].id < rs[j].id
  }

  lemma {:induction false} FilterHolds(rs: seq<Record>, q: Query)
    ensures forall r :: r in Filter(rs, q) <==> r in rs && Passes(r, q)
    ensures Ordered(rs) ==> Ordered(Filter(rs, q))
    decreases |rs|
  {
    if rs != [] {
      var before, last := rs[..|rs| - 1], rs[|rs| - 1];
      FilterHolds(before, q);
      SelectedIff(last, q);
      assert rs == before + [last];
      if Ordered(rs) {
        forall r | r in before ensures r.id < last.id {
          var i :| 0 <= i < |before| && before[i] == r;
          assert rs[i] == r;
        }
      }
    }
  }

  /**
   The answer to a query over a window with increasing ids: only records that pass, in the order asked for, as many as
   the limit allows, and none that passes is left out for one further along.
   */
  lemma AnswerHolds(window: seq<Record>, q: Query)
    requires Ordered(window)
    ensures var a := Answer(window, q);
      && |a| <= q.limit
      && (forall r | r in a :: r in window && Passes(r, q))
      && (forall i, j | 0 <= i < j < |a| :: Before(a[i], a[j], q.ascending))
      && (forall r | r in window && Passes(r, q) && r !in a ::
            |a| == q.limit && forall b | b in a :: Before(b, r, q.ascending))
  {
    FilterHolds(window, q);
    var f := Filter(window, q);
    ReversalKeeps(f);
    FirstHolds(if q.ascending then f else Rev(f), q.limit, q.ascending);
  }

  predicate Before(a: Record, b: Record, ascending: bool) {
    if ascending then a.id < b.id else a.id > b.id
  }

  /** Cutting an ordered list keeps the records that come first. */
  lemma FirstHolds(all: seq<Record>, limit: nat, ascending: bool)
    requires forall i, j | 0 <= i < j < |all| :: Before(all[i], all[j], ascending)
    ensures var a := First(all, limit);
      && |a| <= limit
      && (forall i, j | 0 <= i < j < |a| :: Before(a[i], a[j], ascending))
      && (forall r | r in a :: r in all)
      && (forall r | r in all && r !in a :: |a| == limit && forall b | b in a :: Before(b, r, ascending))
  {
    var a := First(all, limit);
    forall r | r in all && r !in a ensures |a| == limit && forall b | b in a :: Before(b, r, ascending) {
      var n :| 0 <= n < |all| && all[n] == r;
      assert forall i | 0 <= i < |a| :: a[i] == all[i];
      assert n >= |a|;
    }
  }

  lemma ReversalKeeps<T>(s: seq<T>)
    ensures forall x :: x in Rev(s) <==> x in s
  {
    var r := Rev(s);
    forall x ensures x in r <==> x in s {
      if x in s {
        var i :| 0 <= i < |s| && s[i] == x;
        assert r[|s| - 1 - i] == x;
      }
    }
  }

  /** What insert makes of a record: the next id, its own time or the current one, and everything else as it was. */
  lemma StampHolds(n: nat, batch: seq<Record>, now: string, i: nat)
    requires i < |batch|
    ensures var r, s := batch[i], StampAll(n, batch, now)[i];
      && s.id == n + i + 1 && s.hasError == r.hasError && s.fields == r.fields
      && s.timestamp == (if r.timestamp != "" then r.timestamp else now)
  {
  }

  // ---------------------------------------------------------------------------------------------
  // Polling

  ghost predicate Numbered(log: seq<Record>) {
    forall i | 0 <= i < |log| :: log[i].id == i + 1
  }

  /** An ascending poll from the last seen id, without other filters. */
  function Poll(log: seq<Record>, cap: nat, since: nat, limit: nat): seq<Record> {
    Answer(Last(log, cap), Query("", since, false, limit, true))
  }

  lemma {:induction false} FilterSince(log: seq<Record>, lo: nat, since: nat, q: Query)
    requires Numbered(log) && lo <= |log| && q == Query("", since, false, q.limit, true)
    ensures Filter(log[lo..], q) == log[if since < lo then lo else if since < |log| then since else |log|..]
    decreases |log| - lo
  {
    if lo < |log| {
      var r := log[lo];
      assert log[lo..] == [r] + log[lo + 1..];
      FilterConcat([r], log[lo + 1..], q);
      FilterOne(r, q);
      FilterSince(log, lo + 1, since, q);
      assert Selected(r, q) <==> since <= lo;
    }
  }

  /** A poll returns the next records after the last seen one, or the oldest still held if those are gone. */
  lemma PollReturns(log: seq<Record>, cap: nat, since: nat, limit: nat)
    requires Numbered(log) && since <= |log|
    ensures Poll(log, cap, since, limit) == First(log[if |log| - since <= cap then since else |log| - cap..], limit)
  {
    var lo := if |log| <= cap then 0 else |log| - cap;
    assert Last(log, cap) == log[lo..];
    FilterSince(log, lo, since, Query("", since, false, limit, true));
  }

  /** The next unseen record is delivered exactly when it has not been evicted. */
  lemma PollSkipsNothingIff(log: seq<Record>, cap: nat, since: nat, limit: nat)
    requires Numbered(log) && since < |log| && limit > 0 && cap > 0
    ensures var r := Poll(log, cap, since, limit);
      r != [] && (r[0].id == since + 1 <==> |log| - since <= cap)
  {
    PollReturns(log, cap, since, limit);
  }

  datatype Event = Inserts(batch: seq<Record>, now: string) | Polls(limit: nat)

  /** A client that remembers the last id it was given. */
  datatype Client = Client(log: seq<Record>, since: nat, delivered: seq<Record>)

  function Step(c: Client, cap: nat, e: Event): Client {
    match e
    case Inserts(batch, now) => c.(log := c.log + StampAll(|c.log|, batch, now))
    case Polls(limit) =>
      var r := Poll(c.log, cap, c.since, limit);
      if r == [] then c else c.(since := r[|r| - 1].id, delivered := c.delivered + r)
  }

  function Run(c: Client, cap: nat, es: seq<Event>): Client
    decreases |es|
  {
    if es == [] then c else Run(Step(c, cap, es[0]), cap, es[1..])
  }

  /** No record is evicted before the client has seen it. */
  ghost predicate KeepsUp(c: Client, cap: nat, es: seq<Event>)
    decreases |es|
  {
    es == [] || ((es[0].Polls? ==> |c.log| - c.since <= cap) && KeepsUp(Step(c, cap, es[0]), cap, es[1..]))
  }

  /** The client has been given exactly the records after start up to its last seen id. */
  ghost predicate Following(c: Client, start: nat) {
    Numbered(c.log) && start <= c.since <= |c.log| && c.delivered == c.log[start..c.since]
  }

  lemma InsertKeepsFollowing(c: Client, start: nat, cap: nat, batch: seq<Record>, now: string)
    requires Following(c, start)
    ensures Following(Step(c, cap, Inserts(batch, now)), start)
  {
    var log := c.log + StampAll(|c.log|, batch, now);
    assert log[start..c.since] == c.log[start..c.since];
  }

  lemma PollKeepsFollowing(c: Client, start: nat, cap: nat, limit: nat)
    requires Following(c, start) && |c.log| - c.since <= cap
    ensures Following(Step(c, cap, Polls(limit)), start)
  {
    PollReturns(c.log, cap, c.since, limit);
    var r := Poll(c.log, cap, c.since, limit);
    assert r == c.log[c.since..c.since + |r|];
    assert c.log[start..c.since] + r == c.log[start..c.since + |r|];
  }

  lemma {:induction false} PollingRun(c: Client, start: nat, cap: nat, es: seq<Event>)
    requires Following(c, start) && KeepsUp(c, cap, es)
    ensures Following(Run(c, cap, es), start)
    decreases |es|
  {
    if es != [] {
      match es[0] {
        case Inserts(batch, now) => InsertKeepsFollowing(c, start, cap, batch, now);
        case Polls(limit) => PollKeepsFollowing(c, start, cap, limit);
      }
      PollingRun(Step(c, cap, es[0]), start, cap, es[1..]);
    }
  }

  /**
   Repeated ascending polls, with inserts in between, deliver every larger id exactly once and in order, as
   long as no unseen record is evicted: the k-th record delivered has id start + k + 1.
   */
  lemma PollsDeliverInOrder(log: seq<Record>, start: nat, cap: nat, es: seq<Event>)
    requires Numbered(log) && start <= |log| && KeepsUp(Client(log, start, []), cap, es)
    ensures var d := Run(Client(log, start, []), cap, es);
      && d.since == start + |d.delivered| && d.since <= |d.log|
      && (forall k | 0 <= k < |d.delivered| :: d.delivered[k].id == start + k + 1 && d.delivered[k] == d.log[start + k])
  {
    PollingRun(Client(log, start, []), start, cap, es);
  }
}
