/** HostSet.Apply of up/host_set.go as it runs: loops over unordered maps, calls on the cluster handle, one store. */
module HostSetObject {
  import opened HostSets

  function ToSet<T>(s: seq<T>): set<T> {
    set x | x in s
  }

  /** Envoy's side: the pointers handed out and not removed. */
  class ClusterHandle {
    var live: set<HostPtr>

    constructor ()
      ensures live == {}
    {
      live := {};
    }

    /** Envoy returns one pointer per host, all different and none in use. */
    method AddHosts(specs: seq<HostSpec>) returns (ptrs: seq<HostPtr>)
      modifies this
      ensures |ptrs| == |specs|
      ensures forall i | 0 <= i < |ptrs| :: ptrs[i] !in old(live)
      ensures forall i, j | 0 <= i < j < |ptrs| :: ptrs[i] != ptrs[j]
      ensures live == old(live) + ToSet(ptrs)
    {
      var above := 0;
      var todo := live;
      while todo != {}
        invariant todo <= live
        invariant forall p | p in live && p !in todo :: p < above
        decreases todo
      {
        var p :| p in todo;
        if p >= above { above := p + 1; }
        todo := todo - {p};
      }
      ptrs := [];
      for i := 0 to |specs|
        invariant |ptrs| == i
        invariant forall k | 0 <= k < i :: ptrs[k] == above + k
      {
        ptrs := ptrs + [above + i];
      }
      live := live + ToSet(ptrs);
    }

    method RemoveHosts(hosts: seq<HostPtr>)
      modifies this
      ensures live == old(live) - ToSet(hosts)
    {
      live := live - ToSet(hosts);
    }

    /** Only a live host may be updated. */
    method UpdateHostHealth(host: HostPtr)
      requires host in live
    {
    }
  }

  /** The new-or-changed keys of a snapshot in the order they were met. */
  ghost predicate Collected(prev: Published, snap: Snapshot, todo: set<Key>, kept: Published, keys: seq<Key>,
                            specs: seq<HostSpec>) {
    && |keys| == |specs|
    && (forall i | 0 <= i < |keys| ::
          keys[i] in snap && keys[i] !in todo && !Unchanged(prev, snap, keys[i]) && specs[i] == snap[keys[i]])
    && (forall i, j | 0 <= i < j < |keys| :: keys[i] != keys[j])
    && (forall k | k in snap && k !in todo :: k in keys || k in kept)
    && (forall k | k in kept :: k in snap && k !in todo && Unchanged(prev, snap, k) && kept[k] == prev[k])
  }

  class HostSet {
    const handle: ClusterHandle
    var current: Published
    /** Every state another goroutine could meet at a handle call or the publication. */
    ghost var seen: seq<Hosts>

    ghost function State(): Hosts
      reads this, handle
    {
      Hosts(current, handle.live)
    }

    constructor (handle: ClusterHandle)
      requires handle.live == {}
      ensures this.handle == handle && State() == EMPTY && seen == []
    {
      this.handle := handle;
      current, seen := map[], [];
    }

    method Partition(snapshot: Snapshot) returns (kept: Published, keys: seq<Key>, specs: seq<HostSpec>)
      ensures Collected(current, snapshot, {}, kept, keys, specs)
    {
      kept, keys, specs := map[], [], [];
      var todo := snapshot.Keys;
      while todo != {}
        invariant todo <= snapshot.Keys
        invariant Collected(current, snapshot, todo, kept, keys, specs)
        decreases todo
      {
        var k :| k in todo;
        var same := false;
        if k in current { same := CompareSpecs(current[k].spec, snapshot[k]); }
        if same {
          kept := kept[k := current[k]];
        } else {
          keys, specs := keys + [k], specs + [snapshot[k]];
        }
        todo := todo - {k};
      }
    }

    method ToRemove(prev: Published, next: Published) returns (hosts: seq<HostPtr>)
      ensures ToSet(hosts) == DroppedPointers(prev, next)
    {
      hosts := [];
      var todo := prev.Keys;
      while todo != {}
        invariant todo <= prev.Keys
        invariant forall p :: p in hosts <==> exists k | k in Dropped(prev, next) && k !in todo :: prev[k].host == p
        decreases todo
      {
        var k :| k in todo;
        ghost var before := hosts;
        if k !in next {
          hosts := hosts + [prev[k].host];
        } else if next[k].host != prev[k].host {
          hosts := hosts + [prev[k].host];
        }
        forall p ensures p in hosts <==> exists j | j in Dropped(prev, next) && j !in todo - {k} :: prev[j].host == p {
          if p in hosts {
            if p in before {
              var j :| j in Dropped(prev, next) && j !in todo && prev[j].host == p;
              assert j !in todo - {k};
            } else {
              assert k in Dropped(prev, next) && prev[k].host == p;
            }
          }
        }
        todo := todo - {k};
      }
    }

    /** Gives every collected key its pointer. */
    method Assign(kept: Published, keys: seq<Key>, specs: seq<HostSpec>, ptrs: seq<HostPtr>, ghost snapshot: Snapshot)
      returns (next: Published, ghost given: map<Key, HostPtr>)
      requires Collected(current, snapshot, {}, kept, keys, specs) && |ptrs| == |keys|
      requires forall p | p in ptrs :: p in handle.live
      ensures given.Keys == NewKeys(current, snapshot)
      ensures forall i | 0 <= i < |keys| :: given[keys[i]] == ptrs[i]
      ensures next == NextMap(current, snapshot, given)
    {
      next := kept;
      given := map[];
      for i := 0 to |keys|
        invariant GivenUpTo(keys, ptrs, i, given) && NextUpTo(kept, keys, specs, ptrs, i, next)
      {
        GivenStep(keys, ptrs, i, given);
        NextStep(kept, keys, specs, ptrs, i, next);
        next := next[keys[i] := Entry(specs[i], ptrs[i])];
        given := given[keys[i] := ptrs[i]];
        handle.UpdateHostHealth(ptrs[i]);
      }
      AssignedMap(current, snapshot, kept, keys, specs, ptrs, next, given);
    }

    /**
     Replaces the host set: the new state is AfterApply for pointers fresh from Envoy, and every state that was
     visible in between is safe.
     */
    method Apply(snapshot: Snapshot) returns (ghost given: map<Key, HostPtr>)
      requires Exact(State())
      modifies this, handle
      ensures FreshPointers(old(State()), snapshot, given)
      ensures State() == AfterApply(old(State()), snapshot, given) && Exact(State())
      ensures old(seen) <= seen && forall i | |old(seen)| <= i < |seen| :: Safe(seen[i])
    {
      ghost var h := State();
      var prev := current;
      var kept, keys, specs := Partition(snapshot);
      var ptrs := [];
      if |specs| > 0 { ptrs := handle.AddHosts(specs); }
      assert handle.live == h.live + ToSet(ptrs);
      var next;
      next, given := Assign(kept, keys, specs, ptrs, snapshot);
      GivenIsFresh(h, snapshot, given, kept, keys, specs, ptrs);
      ApplyKeepsExact(h, snapshot, given);
      assert State() == AfterAdd(h, given);
      seen := seen + [State()];

      current := next;
      assert State() == AfterPublish(h, snapshot, given);
      seen := seen + [State()];

      var toRemove := ToRemove(prev, next);
      if |toRemove| > 0 {
        handle.RemoveHosts(toRemove);
      } else {
        assert ToSet(toRemove) == {};
      }
      seen := seen + [State()];
      assert Safe(State());
    }

    method Get(key: Key) returns (host: HostPtr, ok: bool)
      ensures ok <==> key in current
      ensures ok ==> host == current[key].host
    {
      ok := key in current;
      host := if ok then current[key].host else 0;
    }
  }

  function KeySet(keys: seq<Key>, i: nat): set<Key>
    requires i <= |keys|
  {
    set j | 0 <= j < i :: keys[j]
  }

  ghost predicate GivenUpTo(keys: seq<Key>, ptrs: seq<HostPtr>, i: nat, given: map<Key, HostPtr>)
    requires i <= |keys| == |ptrs|
  {
    given.Keys == KeySet(keys, i) && forall j | 0 <= j < i :: keys[j] in given && given[keys[j]] == ptrs[j]
  }

  /** The first i collected keys have their pointer; the kept entries are untouched. */
  ghost predicate NextUpTo(kept: Published, keys: seq<Key>, specs: seq<HostSpec>, ptrs: seq<HostPtr>, i: nat,
                           next: Published)
    requires i <= |keys| == |specs| == |ptrs|
  {
    && next.Keys == kept.Keys + KeySet(keys, i)
    && (forall k | k in kept :: k in next && next[k] == kept[k])
    && (forall j | 0 <= j < i :: keys[j] in next && next[keys[j]] == Entry(specs[j], ptrs[j]))
  }

  lemma KeySetGrows(keys: seq<Key>, i: nat)
    requires i < |keys|
    ensures KeySet(keys, i + 1) == KeySet(keys, i) + {keys[i]}
  {
  }

  lemma GivenStep(keys: seq<Key>, ptrs: seq<HostPtr>, i: nat, given: map<Key, HostPtr>)
    requires i < |keys| == |ptrs| && GivenUpTo(keys, ptrs, i, given)
    requires forall a, b | 0 <= a < b < |keys| :: keys[a] != keys[b]
    ensures GivenUpTo(keys, ptrs, i + 1, given[keys[i] := ptrs[i]])
  {
    KeySetGrows(keys, i);
  }

  lemma NextStep(kept: Published, keys: seq<Key>, specs: seq<HostSpec>, ptrs: seq<HostPtr>, i: nat, next: Published)
    requires i < |keys| == |specs| == |ptrs| && NextUpTo(kept, keys, specs, ptrs, i, next) && keys[i] !in kept
    requires forall a, b | 0 <= a < b < |keys| :: keys[a] != keys[b]
    ensures NextUpTo(kept, keys, specs, ptrs, i + 1, next[keys[i] := Entry(specs[i], ptrs[i])])
  {
    KeySetGrows(keys, i);
  }

  lemma CollectedKeys(prev: Published, snap: Snapshot, kept: Published, keys: seq<Key>, specs: seq<HostSpec>)
    requires Collected(prev, snap, {}, kept, keys, specs)
    ensures KeySet(keys, |keys|) == NewKeys(prev, snap)
  {
    forall k | k in NewKeys(prev, snap) ensures k in KeySet(keys, |keys|) {
      assert k in keys;
    }
  }

  lemma AssignedMap(prev: Published, snap: Snapshot, kept: Published, keys: seq<Key>, specs: seq<HostSpec>,
                    ptrs: seq<HostPtr>, next: Published, given: map<Key, HostPtr>)
    requires Collected(prev, snap, {}, kept, keys, specs) && |ptrs| == |keys|
    requires GivenUpTo(keys, ptrs, |keys|, given) && NextUpTo(kept, keys, specs, ptrs, |keys|, next)
    ensures given.Keys == NewKeys(prev, snap) && next == NextMap(prev, snap, given)
  {
    CollectedKeys(prev, snap, kept, keys, specs);
    var want := NextMap(prev, snap, given);
    forall k | k in snap ensures k in next && next[k] == want[k] {
      AssignedAt(prev, snap, kept, keys, specs, ptrs, next, given, k);
    }
    assert next.Keys == want.Keys;
  }

  lemma AssignedAt(prev: Published, snap: Snapshot, kept: Published, keys: seq<Key>, specs: seq<HostSpec>,
                   ptrs: seq<HostPtr>, next: Published, given: map<Key, HostPtr>, k: Key)
    requires Collected(prev, snap, {}, kept, keys, specs) && |ptrs| == |keys|
    requires GivenUpTo(keys, ptrs, |keys|, given) && NextUpTo(kept, keys, specs, ptrs, |keys|, next)
    requires given.Keys == NewKeys(prev, snap) && k in snap
    ensures k in next && next[k] == NextMap(prev, snap, given)[k]
  {
    if k in keys {
      var j :| 0 <= j < |keys| && keys[j] == k;
      assert given[keys[j]] == ptrs[j];
    }
  }

  lemma GivenIsFresh(h: Hosts, snap: Snapshot, given: map<Key, HostPtr>, kept: Published, keys: seq<Key>,
                     specs: seq<HostSpec>, ptrs: seq<HostPtr>)
    requires Collected(h.published, snap, {}, kept, keys, specs) && |ptrs| == |keys|
    requires given.Keys == NewKeys(h.published, snap) && forall i | 0 <= i < |keys| :: given[keys[i]] == ptrs[i]
    requires forall i | 0 <= i < |ptrs| :: ptrs[i] !in h.live
    requires forall i, j | 0 <= i < j < |ptrs| :: ptrs[i] != ptrs[j]
    ensures FreshPointers(h, snap, given) && given.Values == ToSet(ptrs)
  {
    forall k | k in given ensures exists i | 0 <= i < |keys| :: keys[i] == k {
      assert k in keys;
    }
    forall j, k | j in given && k in given && j != k ensures given[j] != given[k] {
      var a :| 0 <= a < |keys| && keys[a] == j;
      var b :| 0 <= b < |keys| && keys[b] == k;
    }
    forall p | p in ptrs ensures p in given.Values {
      var i :| 0 <= i < |ptrs| && ptrs[i] == p;
      assert keys[i] in given && given[keys[i]] == p;
    }
  }
}
