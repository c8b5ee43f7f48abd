/**
 Host-set reconciliation of up/host_set.go: a snapshot is diffed against the published map, new hosts are
 added, the map is published, and only then are old hosts removed.
 */
module HostSets {
  /** The caller's key type; only equality is used. */
  type Key(==, !new)

  type HostPtr = nat

  datatype HostSpec = HostSpec(address: string, hostname: string, weight: nat, metadata: map<string, string>)
  datatype Entry = Entry(spec: HostSpec, host: HostPtr)

  type Snapshot = map<Key, HostSpec>
  type Published = map<Key, Entry>

  // ---------------------------------------------------------------------------------------------
  // specEqual

  /** Go's map read: a missing key reads as the empty string. */
  function Read(m: map<string, string>, k: string): string {
    if k in m then m[k] else ""
  }

  predicate SpecEqual(a: HostSpec, b: HostSpec) {
    && a.address == b.address && a.hostname == b.hostname && a.weight == b.weight
    && |a.metadata| == |b.metadata|
    && forall k | k in a.metadata :: Read(b.metadata, k) == a.metadata[k]
  }

  method CompareSpecs(a: HostSpec, b: HostSpec) returns (same: bool)
    ensures same <==> SpecEqual(a, b)
  {
    if a.address != b.address || a.hostname != b.hostname || a.weight != b.weight { return false; }
    if |a.metadata| != |b.metadata| { return false; }
    var todo := a.metadata.Keys;
    while todo != {}
      invariant todo <= a.metadata.Keys
      invariant forall k | k in a.metadata && k !in todo :: Read(b.metadata, k) == a.metadata[k]
      decreases todo
    {
      var k :| k in todo;
      if Read(b.metadata, k) != a.metadata[k] { return false; }
      todo := todo - {k};
    }
    same := true;
  }

  lemma {:induction false} SameSizeSubset<T>(a: set<T>, b: set<T>)
    requires a <= b && |a| == |b|
    ensures a == b
    decreases |a|
  {
    if a != {} {
      var x :| x in a;
      SameSizeSubset(a - {x}, b - {x});
      assert a == (a - {x}) + {x} && b == (b - {x}) + {x};
    } else {
      assert b == {};
    }
  }

  lemma {:induction false} FreshName(names: set<string>) returns (name: string)
    ensures name !in names
    ensures forall n | n in names :: |n| < |name|
    decreases |names|
  {
    if names == {} {
      name := "m";
    } else {
      var n :| n in names;
      var rest := FreshName(names - {n});
      name := rest + n + "m";
    }
  }

  /**
   specEqual is equality of specs exactly for specs without an empty metadata value: with one, a different
   spec passes for unchanged.
   */
  lemma SpecEqualIsEqualityIff(a: HostSpec)
    ensures (forall b :: SpecEqual(a, b) ==> a == b) <==> (forall k | k in a.metadata :: a.metadata[k] != "")
  {
    if forall k | k in a.metadata :: a.metadata[k] != "" {
      forall b | SpecEqual(a, b) ensures a == b {
        assert a.metadata.Keys <= b.metadata.Keys;
        SameSizeSubset(a.metadata.Keys, b.metadata.Keys);
        assert a.metadata == b.metadata;
      }
    } else {
      var k :| k in a.metadata && a.metadata[k] == "";
      var other := FreshName(a.metadata.Keys);
      var changed := (a.metadata - {k})[other := "x"];
      assert changed.Keys == a.metadata.Keys - {k} + {other};
      assert |changed| == |changed.Keys| == |a.metadata|;
      assert SpecEqual(a, a.(metadata := changed));
      assert other in changed && other !in a.metadata;
    }
  }

  // ---------------------------------------------------------------------------------------------
  // Apply as a relation

  /** The published map together with the pointers that Envoy has been given and not asked to remove. */
  datatype Hosts = Hosts(published: Published, live: set<HostPtr>)

  const EMPTY := Hosts(map[], {})

  predicate Unchanged(prev: Published, snap: Snapshot, k: Key)
    requires k in snap
  {
    k in prev && SpecEqual(prev[k].spec, snap[k])
  }

  function NewKeys(prev: Published, snap: Snapshot): set<Key> {
    set k | k in snap && !Unchanged(prev, snap, k)
  }

  function Pointers(m: Published): set<HostPtr> {
    set k | k in m :: m[k].host
  }

  ghost predicate Injective(m: Published) {
    forall j, k | j in m && k in m && j != k :: m[j].host != m[k].host
  }

  /** What Envoy guarantees about AddHosts: one new pointer per spec, none of them in use. */
  ghost predicate FreshPointers(h: Hosts, snap: Snapshot, ptrs: map<Key, HostPtr>) {
    && ptrs.Keys == NewKeys(h.published, snap)
    && (forall k | k in ptrs :: ptrs[k] !in h.live)
    && (forall j, k | j in ptrs && k in ptrs && j != k :: ptrs[j] != ptrs[k])
  }

  function NextMap(prev: Published, snap: Snapshot, ptrs: map<Key, HostPtr>): Published
    requires ptrs.Keys == NewKeys(prev, snap)
  {
    map k | k in snap :: if Unchanged(prev, snap, k) then prev[k] else Entry(snap[k], ptrs[k])
  }

  /** Keys of the old map whose pointer is gone from the new one. */
  function Dropped(prev: Published, next: Published): set<Key> {
    set k | k in prev && (k !in next || next[k].host != prev[k].host)
  }

  function DroppedPointers(prev: Published, next: Published): set<HostPtr> {
    set k | k in Dropped(prev, next) :: prev[k].host
  }

  /** The states of one Apply: after AddHosts, after publishing, after RemoveHosts. */
  function AfterAdd(h: Hosts, ptrs: map<Key, HostPtr>): Hosts {
    h.(live := h.live + ptrs.Values)
  }

  function AfterPublish(h: Hosts, snap: Snapshot, ptrs: map<Key, HostPtr>): Hosts
    requires ptrs.Keys == NewKeys(h.published, snap)
  {
    Hosts(NextMap(h.published, snap, ptrs), h.live + ptrs.Values)
  }

  function AfterApply(h: Hosts, snap: Snapshot, ptrs: map<Key, HostPtr>): Hosts
    requires ptrs.Keys == NewKeys(h.published, snap)
  {
    var next := NextMap(h.published, snap, ptrs);
    Hosts(next, h.live + ptrs.Values - DroppedPointers(h.published, next))
  }

  /** No reader of the published map can see a dangling pointer. */
  ghost predicate Safe(h: Hosts) {
    Injective(h.published) && Pointers(h.published) <= h.live
  }

  /** Between calls nothing is leaked either. */
  ghost predicate Exact(h: Hosts) {
    Injective(h.published) && Pointers(h.published) == h.live
  }

  /**
   One Apply from an exact state: every intermediate state is safe, the final one is exact again, the keys are
   the snapshot's, unchanged specs keep their pointer and changed ones get a new one.
   */
  lemma ApplyKeepsExact(h: Hosts, snap: Snapshot, ptrs: map<Key, HostPtr>)
    requires Exact(h) && FreshPointers(h, snap, ptrs)
    ensures Safe(AfterAdd(h, ptrs)) && Safe(AfterPublish(h, snap, ptrs)) && Exact(AfterApply(h, snap, ptrs))
    ensures var next := AfterApply(h, snap, ptrs).published;
      && next.Keys == snap.Keys
      && (forall k | k in snap :: SpecEqual(next[k].spec, snap[k]))
      && (forall k | k in snap && k in h.published ::
            (next[k].host == h.published[k].host <==> SpecEqual(h.published[k].spec, snap[k])))
  {
    var prev, next := h.published, NextMap(h.published, snap, ptrs);
    forall k | k in prev ensures prev[k].host in h.live {
      assert prev[k].host in Pointers(prev);
    }
    forall k | k in snap ensures next[k].host in h.live + ptrs.Values {
      if !Unchanged(prev, snap, k) { assert k in ptrs; }
    }
    assert Injective(next) by {
      forall j, k | j in next && k in next && j != k ensures next[j].host != next[k].host {
        assert Unchanged(prev, snap, j) || j in ptrs;
        assert Unchanged(prev, snap, k) || k in ptrs;
      }
    }
    var final := AfterApply(h, snap, ptrs);
    forall p | p in Pointers(next) ensures p in final.live {
      var k :| k in next && next[k].host == p;
      forall j | j in Dropped(prev, next) ensures prev[j].host != p {
        if Unchanged(prev, snap, k) { assert j != k; }
      }
    }
    forall p | p in final.live ensures p in Pointers(next) {
      if p in ptrs.Values {
        var k :| k in ptrs && ptrs[k] == p;
        assert next[k].host == p;
      } else {
        var k :| k in prev && prev[k].host == p;
        assert k !in Dropped(prev, next);
        assert next[k].host == p;
      }
    }
    forall k | k in snap ensures SpecEqual(next[k].spec, snap[k]) { SpecEqualReflexive(snap[k]); }
    assert forall k | k in snap && !Unchanged(prev, snap, k) :: k in ptrs;
  }

  lemma SpecEqualReflexive(a: HostSpec)
    ensures SpecEqual(a, a)
  {
  }

  /** Published specs are the snapshot's own when no published spec has an empty metadata value. */
  lemma PublishedSpecsExact(h: Hosts, snap: Snapshot, ptrs: map<Key, HostPtr>)
    requires Exact(h) && FreshPointers(h, snap, ptrs)
    requires forall k, m | k in h.published && m in h.published[k].spec.metadata ::
      h.published[k].spec.metadata[m] != ""
    ensures forall k | k in snap :: AfterApply(h, snap, ptrs).published[k].spec == snap[k]
  {
    forall k | k in snap ensures AfterApply(h, snap, ptrs).published[k].spec == snap[k] {
      if Unchanged(h.published, snap, k) { SpecEqualIsEqualityIff(h.published[k].spec); }
    }
  }

  ghost predicate PublishesExactly(h: Hosts, snap: Snapshot, ptrs: map<Key, HostPtr>)
    requires FreshPointers(h, snap, ptrs)
  {
    forall k | k in snap :: AfterApply(h, snap, ptrs).published[k].spec == snap[k]
  }

  /**
   What an exact state publishes next is the snapshot itself, for every snapshot and all pointers Envoy may hand out,
   exactly when no spec it publishes now has an empty metadata value.
   */
  lemma PublishedSpecsExactIff(h: Hosts)
    requires Exact(h)
    ensures (forall snap, ptrs | FreshPointers(h, snap, ptrs) :: PublishesExactly(h, snap, ptrs)) <==> PlainHosts(h)
  {
    if PlainHosts(h) {
      forall snap, ptrs | FreshPointers(h, snap, ptrs) ensures PublishesExactly(h, snap, ptrs) {
        assert forall k | k in h.published :: NoEmptyValue(h.published[k].spec);
        PublishedSpecsExact(h, snap, ptrs);
      }
    } else {
      var k :| k in h.published && !NoEmptyValue(h.published[k].spec);
      var a := h.published[k].spec;
      SpecEqualIsEqualityIff(a);
      var b :| SpecEqual(a, b) && a != b;
      StaleSpecPublished(h, k, b);
    }
  }

  /** A different spec that compares equal keeps the old one published. */
  lemma StaleSpecPublished(h: Hosts, k: Key, b: HostSpec)
    requires k in h.published && SpecEqual(h.published[k].spec, b) && h.published[k].spec != b
    ensures FreshPointers(h, map[k := b], map[]) && !PublishesExactly(h, map[k := b], map[])
  {
    var snap: Snapshot := map[k := b];
    assert Unchanged(h.published, snap, k);
    assert NewKeys(h.published, snap) == {};
    assert AfterApply(h, snap, map[]).published[k] == h.published[k];
  }

  /** Two specs that differ in which key carries the empty string, and that specEqual takes for equal. */
  lemma DifferentSpecsCompareEqual(address: string, hostname: string, weight: nat)
    ensures var a := HostSpec(address, hostname, weight, map["zone" := ""]);
      var b := HostSpec(address, hostname, weight, map["rack" := ""]);
      SpecEqual(a, b) && a != b
  {
    var a, b := map["zone" := ""], map["rack" := ""];
    assert "zone" in a && "zone" !in b;
    assert Read(b, "zone") == a["zone"];
  }

  /** One call of Apply and the pointers Envoy hands out for it. */
  datatype Application = Application(snap: Snapshot, ptrs: map<Key, HostPtr>)

  ghost predicate LegalApplies(h: Hosts, calls: seq<Application>)
    decreases |calls|
  {
    calls == [] ||
    (FreshPointers(h, calls[0].snap, calls[0].ptrs)
      && LegalApplies(AfterApply(h, calls[0].snap, calls[0].ptrs), calls[1..]))
  }

  ghost function ApplyAll(h: Hosts, calls: seq<Application>): Hosts
    requires LegalApplies(h, calls)
    decreases |calls|
  {
    if calls == [] then h else ApplyAll(AfterApply(h, calls[0].snap, calls[0].ptrs), calls[1..])
  }

  predicate NoEmptyValue(s: HostSpec) {
    forall m | m in s.metadata :: s.metadata[m] != ""
  }

  ghost predicate PlainHosts(h: Hosts) {
    forall k | k in h.published :: NoEmptyValue(h.published[k].spec)
  }

  predicate PlainSnapshot(snap: Snapshot) {
    forall k | k in snap :: NoEmptyValue(snap[k])
  }

  /** The published entries are those of a snapshot. */
  ghost predicate Publishes(h: Hosts, snap: Snapshot) {
    h.published.Keys == snap.Keys && forall k | k in snap :: h.published[k].spec == snap[k]
  }

  lemma PlainApply(h: Hosts, snap: Snapshot, ptrs: map<Key, HostPtr>)
    requires Exact(h) && FreshPointers(h, snap, ptrs) && PlainHosts(h) && PlainSnapshot(snap)
    ensures Publishes(AfterApply(h, snap, ptrs), snap) && PlainHosts(AfterApply(h, snap, ptrs))
  {
    ApplyKeepsExact(h, snap, ptrs);
    assert forall k, m | k in h.published && m in h.published[k].spec.metadata ::
      h.published[k].spec.metadata[m] != "" by {
      assert forall k | k in h.published :: NoEmptyValue(h.published[k].spec);
    }
    PublishedSpecsExact(h, snap, ptrs);
    var h' := AfterApply(h, snap, ptrs);
    assert forall k | k in h'.published :: k in snap && h'.published[k].spec == snap[k] && NoEmptyValue(snap[k]);
  }

  /**
   For every sequence of snapshots from an exact state no pointer dangles or leaks, and the keys are the last
   snapshot's.
   */
  lemma {:induction false} EveryApply(h: Hosts, calls: seq<Application>)
    requires Exact(h) && LegalApplies(h, calls)
    ensures Exact(ApplyAll(h, calls))
    ensures calls != [] ==> ApplyAll(h, calls).published.Keys == calls[|calls| - 1].snap.Keys
    decreases |calls|
  {
    if calls != [] {
      ApplyKeepsExact(h, calls[0].snap, calls[0].ptrs);
      EveryApply(AfterApply(h, calls[0].snap, calls[0].ptrs), calls[1..]);
    }
  }

  /** If no snapshot has an empty metadata value, what is published is always the last snapshot. */
  lemma {:induction false} EveryPlainApply(h: Hosts, calls: seq<Application>)
    requires Exact(h) && PlainHosts(h) && LegalApplies(h, calls) && calls != []
    requires forall i | 0 <= i < |calls| :: PlainSnapshot(calls[i].snap)
    ensures Publishes(ApplyAll(h, calls), calls[|calls| - 1].snap)
    decreases |calls|
  {
    var a := calls[0];
    ApplyKeepsExact(h, a.snap, a.ptrs);
    PlainApply(h, a.snap, a.ptrs);
    var h1, rest := AfterApply(h, a.snap, a.ptrs), calls[1..];
    assert ApplyAll(h, calls) == ApplyAll(h1, rest);
    if rest == [] {
      assert ApplyAll(h1, rest) == h1;
    } else {
      EveryPlainApply(h1, rest);
      assert rest[|rest| - 1] == calls[|calls| - 1];
    }
  }

  // ---------------------------------------------------------------------------------------------
  // Counting

  lemma {:induction false} InjectiveImage(m: Published, ks: set<Key>)
    requires Injective(m) && ks <= m.Keys
    ensures |set k | k in ks :: m[k].host| == |ks|
    decreases |ks|
  {
    if ks == {} {
      assert (set k | k in ks :: m[k].host) == {};
    } else {
      var x :| x in ks;
      InjectiveImage(m, ks - {x});
      assert (set k | k in ks :: m[k].host) == (set k | k in ks - {x} :: m[k].host) + {m[x].host};
    }
  }

  /** diffCounts as set sizes. */
  predicate IsAdded(prev: Published, next: Published, desired: Snapshot, k: Key) {
    k in desired && k in next && (k !in prev || next[k].host != prev[k].host)
  }

  predicate IsKept(prev: Published, next: Published, desired: Snapshot, k: Key) {
    k in desired && k in next && k in prev && next[k].host == prev[k].host
  }

  function AddedKeys(prev: Published, next: Published, desired: Snapshot): set<Key> {
    set k | k in desired && IsAdded(prev, next, desired, k)
  }

  function KeptKeys(prev: Published, next: Published, desired: Snapshot): set<Key> {
    set k | k in desired && IsKept(prev, next, desired, k)
  }

  function RemovedKeys(prev: Published, next: Published): set<Key> {
    set k | k in prev && k !in next
  }

  function ChangedKeys(prev: Published, next: Published): set<Key> {
    set k | k in prev && k in next && next[k].host != prev[k].host
  }

  lemma CountOne<T>(all: set<T>, todo: set<T>, k: T)
    requires k in todo
    ensures |all - (todo - {k})| == |all - todo| + if k in all then 1 else 0
  {
    if k in all {
      assert all - (todo - {k}) == (all - todo) + {k};
    } else {
      assert all - (todo - {k}) == all - todo;
    }
  }

  method DiffCounts(prev: Published, next: Published, desired: Snapshot) returns (added: nat, removed: nat, kept: nat)
    ensures added == |AddedKeys(prev, next, desired)|
    ensures kept == |KeptKeys(prev, next, desired)|
    ensures removed == |RemovedKeys(prev, next)|
  {
    added, kept := CountDesired(prev, next, desired);
    removed := 0;
    var todo := prev.Keys;
    ghost var all := RemovedKeys(prev, next);
    while todo != {}
      invariant todo <= prev.Keys
      invariant removed == |all - todo|
      decreases todo
    {
      var k :| k in todo;
      CountOne(all, todo, k);
      if k !in next { removed := removed + 1; }
      todo := todo - {k};
    }
    assert all - todo == all;
  }

  method CountDesired(prev: Published, next: Published, desired: Snapshot) returns (added: nat, kept: nat)
    ensures added == |AddedKeys(prev, next, desired)|
    ensures kept == |KeptKeys(prev, next, desired)|
  {
    added, kept := 0, 0;
    var todo := desired.Keys;
    ghost var news, olds: set<Key> := {}, {};
    while todo != {}
      invariant todo <= desired.Keys
      invariant added == |news| && kept == |olds|
      invariant forall k :: k in news <==> IsAdded(prev, next, desired, k) && k !in todo
      invariant forall k :: k in olds <==> IsKept(prev, next, desired, k) && k !in todo
      decreases todo
    {
      var k :| k in todo;
      if k !in prev && k in next {
        added, news := added + 1, news + {k};
      } else if k in prev && k in next && next[k].host == prev[k].host {
        kept, olds := kept + 1, olds + {k};
      } else if k in prev && k in next && next[k].host != prev[k].host {
        added, news := added + 1, news + {k};
      }
      todo := todo - {k};
    }
    assert news == AddedKeys(prev, next, desired);
    assert olds == KeptKeys(prev, next, desired);
  }

  /**
   Conservation of one Apply. The observer's numbers account for the whole snapshot, Added is the number of
   pointers Envoy handed out, and the pointers taken back are the removed keys plus the keys whose spec changed.
   */
  lemma CountsAddUp(h: Hosts, snap: Snapshot, ptrs: map<Key, HostPtr>)
    requires Exact(h) && FreshPointers(h, snap, ptrs)
    ensures var h' := AfterApply(h, snap, ptrs);
      var added := |AddedKeys(h.published, h'.published, snap)|;
      var removed := |RemovedKeys(h.published, h'.published)|;
      && added + |KeptKeys(h.published, h'.published, snap)| == |snap|
      && added == |h'.live - h.live| == |ptrs|
      && |h.live - h'.live| == removed + |ChangedKeys(h.published, h'.published)|
      && |h'.live| + removed + |ChangedKeys(h.published, h'.published)| == |h.live| + added
  {
    KeysAccounted(h, snap, ptrs);
    var h' := AfterApply(h, snap, ptrs);
    ApplyKeepsExact(h, snap, ptrs);
    LiveDifferences(h, snap, ptrs);
    InjectiveImage(h'.published, ptrs.Keys);
    InjectiveImage(h.published, Dropped(h.published, h'.published));
    Exchange(h.live, h'.live);
  }

  lemma KeysAccounted(h: Hosts, snap: Snapshot, ptrs: map<Key, HostPtr>)
    requires Exact(h) && FreshPointers(h, snap, ptrs)
    ensures var prev, next := h.published, AfterApply(h, snap, ptrs).published;
      && AddedKeys(prev, next, snap) == ptrs.Keys
      && |ptrs.Keys| + |KeptKeys(prev, next, snap)| == |snap.Keys|
      && |Dropped(prev, next)| == |RemovedKeys(prev, next)| + |ChangedKeys(prev, next)|
  {
    var prev, next := h.published, AfterApply(h, snap, ptrs).published;
    AddedAreNew(h, snap, ptrs);
    Partition(ptrs.Keys, KeptKeys(prev, next, snap), snap.Keys);
    DroppedPartition(prev, next);
  }

  lemma DroppedPartition(prev: Published, next: Published)
    ensures |Dropped(prev, next)| == |RemovedKeys(prev, next)| + |ChangedKeys(prev, next)|
  {
    Partition(RemovedKeys(prev, next), ChangedKeys(prev, next), Dropped(prev, next));
  }

  lemma AddedAreNew(h: Hosts, snap: Snapshot, ptrs: map<Key, HostPtr>)
    requires Exact(h) && FreshPointers(h, snap, ptrs)
    ensures var prev, next := h.published, AfterApply(h, snap, ptrs).published;
      && AddedKeys(prev, next, snap) == ptrs.Keys
      && KeptKeys(prev, next, snap) == snap.Keys - ptrs.Keys
      && ptrs.Keys <= snap.Keys
  {
    ApplyKeepsExact(h, snap, ptrs);
    var prev, next := h.published, AfterApply(h, snap, ptrs).published;
    forall k | k in snap ensures k in ptrs <==> !(k in prev && next[k].host == prev[k].host) {
      assert k in ptrs <==> !Unchanged(prev, snap, k);
    }
  }

  lemma Partition<T>(a: set<T>, b: set<T>, all: set<T>)
    requires a !! b && a + b == all
    ensures |a| + |b| == |all|
  {
  }

  lemma Exchange<T>(a: set<T>, b: set<T>)
    ensures |b| + |a - b| == |a| + |b - a|
  {
    assert b + (a - b) == a + (b - a);
  }

  lemma LiveDifferences(h: Hosts, snap: Snapshot, ptrs: map<Key, HostPtr>)
    requires Exact(h) && FreshPointers(h, snap, ptrs)
    ensures var h' := AfterApply(h, snap, ptrs);
      && h'.live - h.live == (set k | k in ptrs.Keys :: h'.published[k].host)
      && h.live - h'.live == (set k | k in Dropped(h.published, h'.published) :: h.published[k].host)
  {
    ApplyKeepsExact(h, snap, ptrs);
    var h' := AfterApply(h, snap, ptrs);
    var gone := set k | k in Dropped(h.published, h'.published) :: h.published[k].host;
    forall p | p in h'.live - h.live ensures p in (set k | k in ptrs.Keys :: h'.published[k].host) {
      var k :| k in ptrs && ptrs[k] == p;
      assert h'.published[k].host == p;
    }
    forall p | p in (set k | k in ptrs.Keys :: h'.published[k].host) ensures p in h'.live - h.live {
      var k :| k in ptrs.Keys && h'.published[k].host == p;
      assert p in Pointers(h'.published);
    }
    forall p | p in gone ensures p in h.live - h'.live {
      assert p in DroppedPointers(h.published, h'.published);
      var k :| k in Dropped(h.published, h'.published) && h.published[k].host == p;
      assert p in Pointers(h.published);
    }
  }
}
