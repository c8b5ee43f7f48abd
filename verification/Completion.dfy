/**
 The objects behind host selection: the completion handle of down/cluster.go and the sharded token table of
 down/abi_impl/internal.go.
 */
module Completions {
  import opened Common

  /** A call of one of the injected functions; the finish function is known by the token it removes. */
  datatype Call = Completed(host: nat, errDetail: string) | Cancelled | Finished(token: nat)

  class ClusterLBCompletion {
    var done: bool
    var completeFn: bool
    var cancelFn: bool
    var finishFn: Option<nat>
    var calls: seq<Call>

    constructor (completeFn: bool, cancelFn: bool)
      ensures !done && finishFn == None && calls == [] && this.completeFn == completeFn && this.cancelFn == cancelFn
    {
      done, finishFn, calls := false, None, [];
      this.completeFn, this.cancelFn := completeFn, cancelFn;
    }

    /** The locked part of Complete: the first terminal action gets the functions, later ones nothing. */
    method Finish() returns (complete: bool, finish: Option<nat>, ok: bool)
      modifies `done
      ensures done && ok == !old(done)
      ensures complete == (ok && completeFn) && finish == (if ok then finishFn else None)
    {
      if done { return false, None, false; }
      done := true;
      return completeFn, finishFn, true;
    }

    /** The locked part of Cancel. */
    method ClaimCancel() returns (cancel: bool, finish: Option<nat>, ok: bool)
      modifies `done
      ensures done && ok == !old(done)
      ensures cancel == (ok && cancelFn) && finish == (if ok then finishFn else None)
    {
      if done { return false, None, false; }
      done := true;
      return cancelFn, finishFn, true;
    }

    /** Delivers the result and cleans up once; afterwards every terminal call is refused and calls nothing. */
    method Complete(host: nat, errDetail: string) returns (ok: bool)
      modifies `done, `calls
      ensures done && ok == !old(done)
      ensures calls == old(calls)
        + (if ok && completeFn then [Completed(host, errDetail)] else [])
        + (if ok && finishFn.Some? then [Finished(finishFn.value)] else [])
    {
      var complete, finish, won := Finish();
      if !won { return false; }
      if complete { calls := calls + [Completed(host, errDetail)]; }
      if finish.Some? { calls := calls + [Finished(finish.value)]; }
      ok := true;
    }

    method Cancel() returns (ok: bool)
      modifies `done, `calls
      ensures done && ok == !old(done)
      ensures calls == old(calls)
        + (if ok && cancelFn then [Cancelled] else [])
        + (if ok && finishFn.Some? then [Finished(finishFn.value)] else [])
    {
      var cancel, finish, won := ClaimCancel();
      if !won { return false; }
      if cancel { calls := calls + [Cancelled]; }
      if finish.Some? { calls := calls + [Finished(finish.value)]; }
      ok := true;
    }

    /** Stores the cleanup for the terminal action to run, or runs it at once when that is already over. */
    method SetFinishFn(token: nat)
      modifies `finishFn, `calls
      ensures finishFn == if done then old(finishFn) else Some(token)
      ensures calls == old(calls) + if done then [Finished(token)] else []
    {
      var wasDone := done;
      if !wasDone { finishFn := Some(token); }
      if wasDone { calls := calls + [Finished(token)]; }
    }
  }

  const SHARDS := 32

  /** Every token is in the shard its address selects, and none is nil. */
  ghost predicate Sharded<T>(shards: seq<map<nat, T>>) {
    |shards| == SHARDS && forall i, p | 0 <= i < SHARDS && p in shards[i] :: p % SHARDS == i && p != 0
  }

  ghost function Tokens<T>(shards: seq<map<nat, T>>): set<nat> {
    set i, p | 0 <= i < |shards| && p in shards[i] :: p
  }

  /** The shards as one map. */
  ghost function View<T>(shards: seq<map<nat, T>>): map<nat, T>
    requires Sharded(shards)
  {
    map p | p in Tokens(shards) :: shards[p % SHARDS][p]
  }

  lemma ViewAt<T>(shards: seq<map<nat, T>>, p: nat)
    requires Sharded(shards)
    ensures p in View(shards) <==> p in shards[p % SHARDS]
    ensures p in View(shards) ==> View(shards)[p] == shards[p % SHARDS][p] && p != 0
  {
    if p in Tokens(shards) {
      var i :| 0 <= i < |shards| && p in shards[i];
    }
  }

  /** The view is determined by the shards each token selects. */
  lemma ViewOf<T>(shards: seq<map<nat, T>>, m: map<nat, T>)
    requires Sharded(shards)
    requires forall p :: p in m <==> p in shards[p % SHARDS]
    requires forall p | p in m :: m[p] == shards[p % SHARDS][p]
    ensures View(shards) == m
  {
    forall p ensures p in View(shards) <==> p in m {
      ViewAt(shards, p);
    }
    forall p | p in m ensures View(shards)[p] == m[p] {
      ViewAt(shards, p);
    }
  }

  lemma ViewRecorded<T>(shards: seq<map<nat, T>>, ptr: nat, item: T)
    requires Sharded(shards) && ptr != 0
    ensures var i := ptr % SHARDS;
      var shard: map<nat, T> := shards[i][ptr := item];
      var now := shards[i := shard];
      Sharded(now) && View(now) == View(shards)[ptr := item]
  {
    var i := ptr % SHARDS;
    var shard: map<nat, T> := shards[i][ptr := item];
    var now, m: map<nat, T> := shards[i := shard], View(shards)[ptr := item];
    assert Sharded(now);
    forall p: nat ensures (p in m <==> p in now[p % SHARDS]) && (p in m ==> m[p] == now[p % SHARDS][p]) {
      ViewAt(shards, p);
    }
    ViewOf(now, m);
  }

  lemma ViewRemoved<T>(shards: seq<map<nat, T>>, ptr: nat)
    requires Sharded(shards)
    ensures var i := ptr % SHARDS;
      var now := shards[i := shards[i] - {ptr}];
      Sharded(now) && View(now) == View(shards) - {ptr}
  {
    var i := ptr % SHARDS;
    var now, m := shards[i := shards[i] - {ptr}], View(shards) - {ptr};
    assert Sharded(now);
    forall p: nat ensures (p in m <==> p in now[p % SHARDS]) && (p in m ==> m[p] == now[p % SHARDS][p]) {
      ViewAt(shards, p);
    }
    ViewOf(now, m);
  }

  /** Tokens map to objects; the shard of a token is its address modulo 32. Address 0 is nil. */
  class Manager<T> {
    const data: array<map<nat, T>>
    var freed: seq<nat>

    ghost predicate Valid()
      reads this, data
    {
      Sharded(data[..])
    }

    /** The table as one map. */
    ghost function Contents(): map<nat, T>
      requires Valid()
      reads this, data
    {
      View(data[..])
    }

    constructor ()
      ensures Valid() && Contents() == map[] && freed == [] && fresh(data)
    {
      data := new map<nat, T>[SHARDS](_ => map[]);
      freed := [];
      new;
      assert forall i | 0 <= i < SHARDS :: data[..][i] == map[];
      ViewOf(data[..], map[]);
    }

    /** ptr is what malloc returns: not nil and not a token in use. */
    method Record(item: T, ptr: nat)
      requires Valid() && ptr != 0 && ptr !in Contents()
      modifies data
      ensures Valid() && Contents() == old(Contents())[ptr := item]
    {
      var idx := ptr % SHARDS;
      ViewRecorded(data[..], ptr, item);
      data[idx] := data[idx][ptr := item];
    }

    method Unwrap(ptr: nat) returns (r: Option<T>)
      requires Valid()
      ensures r == if ptr in Contents() then Some(Contents()[ptr]) else None
    {
      ViewAt(data[..], ptr);
      if ptr == 0 { return None; }
      var shard := data[ptr % SHARDS];
      r := if ptr in shard then Some(shard[ptr]) else None;
    }

    /** Forgets the token and frees it, whether or not it was still recorded. */
    method Remove(ptr: nat)
      requires Valid()
      modifies data, `freed
      ensures Valid() && Contents() == old(Contents()) - {ptr}
      ensures freed == old(freed) + if ptr == 0 then [] else [ptr]
    {
      ViewAt(data[..], ptr);
      if ptr == 0 { return; }
      ViewRemoved(data[..], ptr);
      var idx := ptr % SHARDS;
      data[idx] := data[idx] - {ptr};
      freed := freed + [ptr];
    }
  }
}
