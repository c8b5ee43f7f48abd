/**
 Shard routing of examples/cluster-shard-router/router.go: token normalisation, resolution of a configuration
 into a snapshot, longest-prefix choice over an unordered map, and the decision the upstream filter stamps on a
 request. Tokens are ASCII; addresses come from a lookup function and digests from a digest function.
 */
module ShardRouter {
  import opened Common

  datatype Route = Route(name: string, shard: string, target: string, address: string, prefixes: seq<string>,
    status: string)
  datatype Snapshot = Snapshot(version: string, defaultShard: string, shards: map<string, Route>)
  datatype ShardConfig = ShardConfig(target: string, prefixes: seq<string>, shard: string, status: string)
  datatype Config = Config(version: string, defaultShard: string, shards: map<string, ShardConfig>)
  datatype Decision = Decision(tag: string, source: string, route: Route)

  const DEFAULT_SHARD_NAME := "default"
  const TAG_HEADER := "x-transit-tag"
  const TAG_SOURCE_HEADER := "x-transit-tag-source"
  const BYOK_KEY_HEADER := "x-byok-key-id"
  const USER_KEY_HEADER := "x-user-key"
  const TENANT_HEADER := "x-tenant"
  const SHARD_HEADER := "x-transit-l1-shard"
  const TARGET_HEADER := "x-transit-l1-target"
  const VERSION_HEADER := "x-cluster-shard-router-version"

  // ---------------------------------------------------------------------------------------------
  // Tokens

  predicate Space(c: char) {
    c == ' ' || 9 as char <= c <= 13 as char
  }

  function TrimLeft(s: string): (r: string)
    ensures r == [] || !Space(r[0])
  {
    if s != [] && Space(s[0]) then TrimLeft(s[1..]) else s
  }

  function TrimRight(s: string): (r: string)
    ensures r == [] || !Space(r[|r| - 1])
    ensures |r| <= |s| && r == s[..|r|]
  {
    if s != [] && Space(s[|s| - 1]) then TrimRight(s[..|s| - 1]) else s
  }

  function Trim(s: string): string {
    TrimRight(TrimLeft(s))
  }

  function NormalizeToken(v: string): string {
    Fold(Trim(v))
  }

  /** Trimmed at both ends and in lower case. */
  predicate Normal(s: string) {
    && (s != [] ==> !Space(s[0]) && !Space(s[|s| - 1]))
    && forall i | 0 <= i < |s| :: LowerChar(s[i]) == s[i]
  }

  lemma NormalIsFixed(s: string)
    requires Normal(s)
    ensures NormalizeToken(s) == s
  {
    assert Trim(s) == s;
  }

  /** The tokens that normalisation produces are exactly the ones it leaves alone. */
  lemma NormalizeTokenIdempotent(v: string)
    ensures Normal(NormalizeToken(v)) && NormalizeToken(NormalizeToken(v)) == NormalizeToken(v)
  {
    NormalIsFixed(NormalizeToken(v));
  }

  /** A blank, a tab, a newline, a vertical tab, a form feed or a carriage return. */
  predicate Blank(c: char) {
    c == ' ' || c == '\t' || c == '\n' || c as int == 11 || c as int == 12 || c == '\r'
  }

  lemma {:induction false} TrimLeftMeans(s: string) returns (i: nat)
    ensures i <= |s| && TrimLeft(s) == s[i..] && forall k | 0 <= k < i :: Blank(s[k])
  {
    if s != [] && Space(s[0]) {
      var j := TrimLeftMeans(s[1..]);
      i := j + 1;
      assert s[1..][j..] == s[i..];
      assert forall k | 1 <= k < i :: s[k] == s[1..][k - 1];
    } else {
      i := 0;
    }
  }

  lemma {:induction false} TrimRightMeans(s: string)
    ensures forall k | |TrimRight(s)| <= k < |s| :: Blank(s[k])
  {
    if s != [] && Space(s[|s| - 1]) { TrimRightMeans(s[..|s| - 1]); }
  }

  /**
   A normalised token is the text between its first and last character that is not blank, in lower case: only blanks
   are cut off, and none is left at either end.
   */
  lemma NormalizeTokenMeans(v: string) returns (i: nat, j: nat)
    ensures i <= j <= |v| && NormalizeToken(v) == Fold(v[i..j])
    ensures forall k | 0 <= k < i || j <= k < |v| :: Blank(v[k])
    ensures i < j ==> !Blank(v[i]) && !Blank(v[j - 1])
  {
    i := TrimLeftMeans(v);
    var t := TrimLeft(v);
    TrimRightMeans(t);
    j := i + |TrimRight(t)|;
    assert TrimRight(t) == v[i..j];
    assert forall k | i <= k < |v| :: v[k] == t[k - i];
  }

  // ---------------------------------------------------------------------------------------------
  // Prefix lists

  /** Normalised, without empty tokens, first occurrences only. */
  function Prefixes(input: seq<string>): seq<string>
    decreases |input|
  {
    if input == [] then []
    else
      var done := Prefixes(input[..|input| - 1]);
      var p := NormalizeToken(input[|input| - 1]);
      if p == "" || p in done then done else done + [p]
  }

  ghost predicate Distinct(s: seq<string>) {
    forall i, j | 0 <= i < j < |s| :: s[i] != s[j]
  }

  /** Some entry of the list normalises to p. */
  ghost predicate Names(input: seq<string>, p: string) {
    exists i :: 0 <= i < |input| && p == NormalizeToken(input[i])
  }

  /** Contents of a normalised prefix list. */
  lemma {:induction false} PrefixesContents(input: seq<string>)
    ensures Distinct(Prefixes(input))
    ensures forall p :: p in Prefixes(input) <==> p != "" && Names(input, p)
    decreases |input|
  {
    if input != [] {
      var rest := input[..|input| - 1];
      PrefixesContents(rest);
      var q := NormalizeToken(input[|input| - 1]);
      forall p | p != "" ensures p in Prefixes(input) <==> Names(input, p) {
        if i :| 0 <= i < |rest| && p == NormalizeToken(rest[i]) { assert p == NormalizeToken(input[i]); }
        if i :| 0 <= i < |input| && p == NormalizeToken(input[i]) {
          if i < |rest| { assert p == NormalizeToken(rest[i]); }
        }
      }
    }
  }

  /** A list that is already normal and without repetitions is kept as it is. */
  lemma {:induction false} PrefixesKeep(s: seq<string>)
    requires Distinct(s) && forall p | p in s :: p != "" && Normal(p)
    ensures Prefixes(s) == s
    decreases |s|
  {
    if s != [] {
      var rest := s[..|s| - 1];
      assert forall p | p in rest :: p in s;
      PrefixesKeep(rest);
      NormalIsFixed(s[|s| - 1]);
      assert s == rest + [s[|s| - 1]];
    }
  }

  lemma PrefixesIdempotent(input: seq<string>)
    ensures Prefixes(Prefixes(input)) == Prefixes(input)
  {
    PrefixesAreNormal(input);
    PrefixesKeep(Prefixes(input));
  }

  lemma PrefixesAreNormal(input: seq<string>)
    ensures Distinct(Prefixes(input))
    ensures forall p | p in Prefixes(input) :: p != "" && Normal(p)
  {
    PrefixesContents(input);
    forall p | p in Prefixes(input) ensures p != "" && Normal(p) {
      var i :| 0 <= i < |input| && p == NormalizeToken(input[i]);
      NormalizeTokenIdempotent(input[i]);
    }
  }

  method NormalizePrefixes(input: seq<string>) returns (out: seq<string>)
    ensures out == Prefixes(input)
  {
    out := [];
    var seen := {};
    var i := 0;
    while i < |input|
      invariant i <= |input| && out == Prefixes(input[..i])
      invariant forall p :: p in seen <==> p in out
    {
      assert input[..i + 1][..i] == input[..i];
      var p := NormalizeToken(input[i]);
      if p != "" && p !in seen {
        seen := seen + {p};
        out := out + [p];
      }
      i := i + 1;
    }
    assert input[..|input|] == input;
  }

  // ---------------------------------------------------------------------------------------------
  // Orders in which a map may be iterated

  ghost predicate Listing(order: seq<string>, keys: set<string>) {
    Distinct(order) && forall k :: k in order <==> k in keys
  }

  lemma {:induction false} SomeListing(keys: set<string>) returns (order: seq<string>)
    ensures Listing(order, keys)
    decreases |keys|
  {
    if keys == {} {
      order := [];
    } else {
      var k :| k in keys;
      var rest := SomeListing(keys - {k});
      order := rest + [k];
    }
  }

  lemma DistinctConcat(a: seq<string>, b: seq<string>)
    requires Distinct(a) && Distinct(b) && forall k | k in b :: k !in a
    ensures Distinct(a + b)
  {
    var s := a + b;
    forall i, j | 0 <= i < j < |s| ensures s[i] != s[j] {
      assert j >= |a| ==> s[j] == b[j - |a|] && s[j] in b;
      assert i < |a| ==> s[i] in a;
    }
  }

  /** Every key can come first, and every key can come last. */
  lemma ListingsAround(keys: set<string>, k: string) returns (leading: seq<string>, trailing: seq<string>)
    requires k in keys
    ensures Listing(leading, keys) && leading != [] && leading[0] == k
    ensures Listing(trailing, keys) && trailing != [] && trailing[|trailing| - 1] == k
  {
    var rest := SomeListing(keys - {k});
    leading := [k] + rest;
    trailing := rest + [k];
  }

  // ---------------------------------------------------------------------------------------------
  // Longest-prefix choice

  datatype Best = Best(route: Option<Route>, len: nat)

  predicate Active(r: Route) {
    r.status == "" || r.status == "active"
  }

  predicate HasPrefix(s: string, p: string) {
    |p| <= |s| && s[..|p|] == p
  }

  /** The inner loop over the first n prefixes of a route. */
  function TryPrefixes(b: Best, r: Route, t: string, n: nat): Best
    requires n <= |r.prefixes|
  {
    if n == 0 then b
    else
      var c := TryPrefixes(b, r, t, n - 1);
      var p := r.prefixes[n - 1];
      if HasPrefix(t, p) && |p| > c.len then Best(Some(r), |p|) else c
  }

  function Visit(b: Best, r: Route, t: string): Best {
    if Active(r) then TryPrefixes(b, r, t, |r.prefixes|) else b
  }

  /** The outer loop, over the routes in the given order. */
  function Scan(shards: map<string, Route>, t: string, order: seq<string>): Best
    requires forall k | k in order :: k in shards
    decreases |order|
  {
    if order == [] then Best(None, 0)
    else Visit(Scan(shards, t, order[..|order| - 1]), shards[order[|order| - 1]], t)
  }

  function Lookup(shards: map<string, Route>, k: string): Option<Route> {
    if k in shards then Some(shards[k]) else None
  }

  function ChooseOver(snap: Snapshot, tag: string, order: seq<string>): Option<Route>
    requires forall k | k in order :: k in snap.shards
  {
    var b := Scan(snap.shards, NormalizeToken(tag), order);
    if b.route.Some? then b.route else Lookup(snap.shards, snap.defaultShard)
  }

  /** A route without status, or with status active, claims t through a non-empty prefix p. */
  predicate Claims(r: Route, t: string, p: string) {
    (r.status == "" || r.status == "active") && p in r.prefixes && p != "" && p <= t
  }

  /** k claims t through p, and no active route claims it through a longer prefix. */
  ghost predicate Longest(shards: map<string, Route>, t: string, k: string, p: string) {
    && k in shards && Claims(shards[k], t, p)
    && forall j, q :: j in shards && Claims(shards[j], t, q) ==> |q| <= |p|
  }

  ghost predicate Unclaimed(shards: map<string, Route>, t: string) {
    forall j, q :: j in shards ==> !Claims(shards[j], t, q)
  }

  lemma {:induction false} TryPrefixesResult(b: Best, r: Route, t: string, n: nat)
    requires n <= |r.prefixes|
    ensures var c := TryPrefixes(b, r, t, n);
      && c.len >= b.len
      && (forall i | 0 <= i < n :: HasPrefix(t, r.prefixes[i]) ==> |r.prefixes[i]| <= c.len)
      && (c == b || (c.route == Some(r) && c.len > b.len
          && exists i :: 0 <= i < n && HasPrefix(t, r.prefixes[i]) && |r.prefixes[i]| == c.len))
  {
    if n > 0 { TryPrefixesResult(b, r, t, n - 1); }
  }

  lemma VisitResult(b: Best, r: Route, t: string)
    ensures var c := Visit(b, r, t);
      && c.len >= b.len
      && (forall p | Claims(r, t, p) :: |p| <= c.len)
      && (c == b || (c.route == Some(r) && c.len > b.len && exists p :: Claims(r, t, p) && |p| == c.len))
  {
    TryPrefixesResult(b, r, t, |r.prefixes|);
    var c := Visit(b, r, t);
    if c != b {
      var i :| 0 <= i < |r.prefixes| && HasPrefix(t, r.prefixes[i]) && |r.prefixes[i]| == c.len;
      assert Claims(r, t, r.prefixes[i]);
    }
  }

  /** What the scan holds after any part of any order. */
  ghost predicate ScanHolds(shards: map<string, Route>, t: string, order: seq<string>, b: Best) {
    && (forall k, p :: k in order && k in shards && Claims(shards[k], t, p) ==> |p| <= b.len)
    && (b.route.None? ==> b.len == 0)
    && (b.route.Some? ==> exists k, p ::
      k in order && k in shards && Claims(shards[k], t, p) && |p| == b.len && b.route.value == shards[k])
  }

  lemma {:induction false} ScanResult(shards: map<string, Route>, t: string, order: seq<string>)
    requires forall k | k in order :: k in shards
    ensures ScanHolds(shards, t, order, Scan(shards, t, order))
    decreases |order|
  {
    if order != [] {
      var rest, last := order[..|order| - 1], order[|order| - 1];
      assert order == rest + [last];
      ScanResult(shards, t, rest);
      VisitResult(Scan(shards, t, rest), shards[last], t);
    }
  }

  /** For every iteration order: a longest claimant, or the default when no active route claims the tag. */
  lemma ChosenRoute(snap: Snapshot, tag: string, order: seq<string>)
    requires Listing(order, snap.shards.Keys)
    ensures var t, r := NormalizeToken(tag), ChooseOver(snap, tag, order);
      || (exists k, p :: Longest(snap.shards, t, k, p) && r == Some(snap.shards[k]))
      || (Unclaimed(snap.shards, t) && r == Lookup(snap.shards, snap.defaultShard))
  {
    var t := NormalizeToken(tag);
    var b := Scan(snap.shards, t, order);
    ScanResult(snap.shards, t, order);
    if b.route.Some? {
      var k, p :| k in order && k in snap.shards && Claims(snap.shards[k], t, p) && |p| == b.len
        && b.route.value == snap.shards[k];
      assert Longest(snap.shards, t, k, p);
    } else {
      assert Unclaimed(snap.shards, t);
    }
  }

  /** A longest claimant that is visited first keeps its place. */
  lemma {:induction false} FirstLongestWins(shards: map<string, Route>, t: string, order: seq<string>, p: string)
    requires order != [] && forall k | k in order :: k in shards
    requires Longest(shards, t, order[0], p)
    ensures Scan(shards, t, order) == Best(Some(shards[order[0]]), |p|)
    decreases |order|
  {
    var rest, last := order[..|order| - 1], order[|order| - 1];
    VisitResult(Scan(shards, t, rest), shards[last], t);
    if rest != [] {
      assert order == rest + [last];
      FirstLongestWins(shards, t, rest, p);
    }
  }

  ghost predicate ClaimantsAgree(shards: map<string, Route>, t: string) {
    forall j, p, k, q :: Longest(shards, t, j, p) && Longest(shards, t, k, q) ==> shards[j] == shards[k]
  }

  ghost predicate SameChoice(snap: Snapshot, tag: string, o1: seq<string>, o2: seq<string>)
    requires Listing(o1, snap.shards.Keys) && Listing(o2, snap.shards.Keys)
  {
    ChooseOver(snap, tag, o1) == ChooseOver(snap, tag, o2)
  }

  ghost predicate OrderIndependent(snap: Snapshot, tag: string) {
    forall o1, o2 | Listing(o1, snap.shards.Keys) && Listing(o2, snap.shards.Keys) :: SameChoice(snap, tag, o1, o2)
  }

  lemma SameForTwoOrders(snap: Snapshot, tag: string, o1: seq<string>, o2: seq<string>)
    requires Listing(o1, snap.shards.Keys) && Listing(o2, snap.shards.Keys)
    requires ClaimantsAgree(snap.shards, NormalizeToken(tag))
    ensures ChooseOver(snap, tag, o1) == ChooseOver(snap, tag, o2)
  {
    ChosenRoute(snap, tag, o1);
    ChosenRoute(snap, tag, o2);
  }

  /** The choice is the same for every iteration order exactly when all longest claimants are one route. */
  lemma OrderIndependentIff(snap: Snapshot, tag: string)
    ensures OrderIndependent(snap, tag) <==> ClaimantsAgree(snap.shards, NormalizeToken(tag))
  {
    var t := NormalizeToken(tag);
    if ClaimantsAgree(snap.shards, t) {
      forall o1, o2 | Listing(o1, snap.shards.Keys) && Listing(o2, snap.shards.Keys)
        ensures SameChoice(snap, tag, o1, o2)
      {
        SameForTwoOrders(snap, tag, o1, o2);
      }
    }
    if OrderIndependent(snap, tag) {
      forall j, p, k, q | Longest(snap.shards, t, j, p) && Longest(snap.shards, t, k, q)
        ensures snap.shards[j] == snap.shards[k]
      {
        var o1, _ := ListingsAround(snap.shards.Keys, j);
        var o2, _ := ListingsAround(snap.shards.Keys, k);
        FirstLongestWins(snap.shards, t, o1, p);
        FirstLongestWins(snap.shards, t, o2, q);
        assert SameChoice(snap, tag, o1, o2);
      }
    }
  }

  /** No prefix is listed by two active routes. */
  ghost predicate NoSharedPrefix(shards: map<string, Route>) {
    forall j, k, p | j in shards && k in shards && Active(shards[j]) && Active(shards[k])
      && p in shards[j].prefixes && p in shards[k].prefixes :: j == k
  }

  /** What a snapshot that came out of resolution looks like. */
  ghost predicate Resolved(snap: Snapshot) {
    && snap.defaultShard != "" && Normal(snap.defaultShard)
    && (snap.shards != map[] ==> snap.defaultShard in snap.shards)
    && (forall k | k in snap.shards :: snap.shards[k].name == k && k != "" && Normal(k))
    && forall k, p | k in snap.shards && p in snap.shards[k].prefixes :: p != "" && Normal(p)
  }

  lemma SameLengthSamePrefix(shards: map<string, Route>, t: string, j: string, p: string, k: string, q: string)
    requires Longest(shards, t, j, p) && Longest(shards, t, k, q)
    ensures p == q
  {
    assert |p| == |q|;
  }

  lemma UnsharedAgree(shards: map<string, Route>, t: string)
    requires NoSharedPrefix(shards)
    ensures ClaimantsAgree(shards, t)
  {
    forall j, p, k, q | Longest(shards, t, j, p) && Longest(shards, t, k, q) ensures shards[j] == shards[k] {
      SameLengthSamePrefix(shards, t, j, p, k, q);
    }
  }

  /** A resolved snapshot routes every tag independently of map order exactly when no active shards share a prefix. */
  lemma EveryTagOrderIndependentIff(snap: Snapshot)
    requires Resolved(snap)
    ensures (forall tag :: OrderIndependent(snap, tag)) <==> NoSharedPrefix(snap.shards)
  {
    if NoSharedPrefix(snap.shards) {
      forall tag ensures OrderIndependent(snap, tag) {
        UnsharedAgree(snap.shards, NormalizeToken(tag));
        OrderIndependentIff(snap, tag);
      }
    }
    if forall tag :: OrderIndependent(snap, tag) {
      forall j, k, p | j in snap.shards && k in snap.shards && Active(snap.shards[j]) && Active(snap.shards[k])
        && p in snap.shards[j].prefixes && p in snap.shards[k].prefixes
        ensures j == k
      {
        assert OrderIndependent(snap, p);
        OrderIndependentIff(snap, p);
        NormalIsFixed(p);
        assert Longest(snap.shards, p, j, p) && Longest(snap.shards, p, k, p);
        assert snap.shards[j].name == snap.shards[k].name;
      }
    }
  }

  /** Two active shards with one prefix: the tag goes to whichever is iterated first. */
  lemma SharedPrefixDependsOnOrder(a: Route, b: Route)
    requires a.name == "a" && b.name == "b" && a.status == "" && b.status == "active"
    requires a.prefixes == ["x"] && b.prefixes == ["x"]
    ensures var snap := Snapshot("v1", "a", map["a" := a, "b" := b]);
      && Resolved(snap)
      && Listing(["a", "b"], snap.shards.Keys) && ChooseOver(snap, "x", ["a", "b"]) == Some(a)
      && Listing(["b", "a"], snap.shards.Keys) && ChooseOver(snap, "x", ["b", "a"]) == Some(b)
  {
    var shards := map["a" := a, "b" := b];
    NormalIsFixed("x");
    assert "x" in a.prefixes && "x" in b.prefixes;
    assert Longest(shards, "x", "a", "x") && Longest(shards, "x", "b", "x");
    FirstLongestWins(shards, "x", ["a", "b"], "x");
    FirstLongestWins(shards, "x", ["b", "a"], "x");
  }

  method ChooseShard(snap: Snapshot, tag: string) returns (r: Option<Route>)
    ensures exists order :: Listing(order, snap.shards.Keys) && r == ChooseOver(snap, tag, order)
  {
    var t := NormalizeToken(tag);
    var best: Option<Route>, bestLen: nat := None, 0;
    var rest := snap.shards.Keys;
    ghost var order: seq<string> := [];
    while rest != {}
      invariant Distinct(order) && forall k :: k in order <==> k in snap.shards && k !in rest
      invariant rest <= snap.shards.Keys
      invariant Best(best, bestLen) == Scan(snap.shards, t, order)
      decreases |rest|
    {
      var k :| k in rest;
      var route := snap.shards[k];
      ghost var before := Best(best, bestLen);
      if Active(route) {
        var i := 0;
        while i < |route.prefixes|
          invariant i <= |route.prefixes|
          invariant Best(best, bestLen) == TryPrefixes(before, route, t, i)
        {
          if HasPrefix(t, route.prefixes[i]) && |route.prefixes[i]| > bestLen {
            best := Some(route);
            bestLen := |route.prefixes[i]|;
          }
          i := i + 1;
        }
      }
      assert (order + [k])[..|order|] == order;
      order := order + [k];
      rest := rest - {k};
    }
    r := if best.Some? then best else Lookup(snap.shards, snap.defaultShard);
    assert Listing(order, snap.shards.Keys);
  }
}
