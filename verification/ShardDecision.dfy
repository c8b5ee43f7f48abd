/** Resolving a configuration, deriving a tag and deciding on a route: the callers of `ShardRouter`'s choice. */
module ShardDecision {
  import opened Common
  import opened ShardRouter

  // ---------------------------------------------------------------------------------------------
  // Resolving a configuration

  datatype Resolution =
    | Ok(snapshot: Snapshot)
    | NameRequired
    | TargetRequired(name: string)
    | Unresolved(target: string)
    | DefaultMissing(name: string)

  /** The routes gathered so far, or the error the loop returned with. */
  datatype Gathered = Routes(shards: map<string, Route>) | Failed(error: Resolution)

  type Resolver = string -> Option<string>

  function OrElse(s: string, other: string): string {
    if s == "" then other else s
  }

  function RouteOf(name: string, c: ShardConfig, address: string): Route {
    var routeName := NormalizeToken(name);
    var prefixes := Prefixes(c.prefixes);
    Route(routeName, OrElse(NormalizeToken(c.shard), routeName), c.target, address,
          if prefixes == [] && routeName != DEFAULT_SHARD_NAME then [routeName] else prefixes,
          NormalizeToken(c.status))
  }

  /** One iteration of the loop over the configured shards. */
  function GatherOne(m: map<string, Route>, name: string, c: ShardConfig, resolve: Resolver): Gathered {
    if NormalizeToken(name) == "" then Failed(NameRequired)
    else if c.target == "" then Failed(TargetRequired(name))
    else match resolve(c.target)
      case None => Failed(Unresolved(c.target))
      case Some(address) => Routes(m[NormalizeToken(name) := RouteOf(name, c, address)])
  }

  function Gather(cfg: Config, resolve: Resolver, order: seq<string>): Gathered
    requires forall k | k in order :: k in cfg.shards
    decreases |order|
  {
    if order == [] then Routes(map[])
    else
      match Gather(cfg, resolve, order[..|order| - 1])
      case Failed(e) => Failed(e)
      case Routes(m) => GatherOne(m, order[|order| - 1], cfg.shards[order[|order| - 1]], resolve)
  }

  function DefaultName(cfg: Config): string {
    OrElse(NormalizeToken(cfg.defaultShard), DEFAULT_SHARD_NAME)
  }

  function Conclude(cfg: Config, g: Gathered): Resolution {
    match g
    case Failed(e) => e
    case Routes(m) =>
      if DefaultName(cfg) !in m && m != map[] then DefaultMissing(DefaultName(cfg))
      else Ok(Snapshot(cfg.version, DefaultName(cfg), m))
  }

  function ResolveOver(cfg: Config, resolve: Resolver, order: seq<string>): Resolution
    requires forall k | k in order :: k in cfg.shards
  {
    Conclude(cfg, Gather(cfg, resolve, order))
  }

  /** A configured shard the loop accepts. */
  predicate Usable(cfg: Config, resolve: Resolver, name: string) {
    && name in cfg.shards && NormalizeToken(name) != ""
    && cfg.shards[name].target != "" && resolve(cfg.shards[name].target).Some?
  }

  function Entry(cfg: Config, resolve: Resolver, name: string): Route
    requires Usable(cfg, resolve, name)
  {
    RouteOf(name, cfg.shards[name], resolve(cfg.shards[name].target).value)
  }

  /** r is the entry of a listed shard whose name normalises to k. */
  ghost predicate EntryOfListed(cfg: Config, resolve: Resolver, order: seq<string>, k: string, r: Route) {
    exists name :: name in order && Usable(cfg, resolve, name) && NormalizeToken(name) == k
      && r == Entry(cfg, resolve, name)
  }

  /** m holds, under each normalised name, the entry of one of the listed shards. */
  ghost predicate GatheredFrom(cfg: Config, resolve: Resolver, order: seq<string>, m: map<string, Route>) {
    && (forall name | name in order :: Usable(cfg, resolve, name) && NormalizeToken(name) in m)
    && (forall k | k in m :: EntryOfListed(cfg, resolve, order, k, m[k]))
  }

  lemma GatherOneResult(m: map<string, Route>, cfg: Config, resolve: Resolver, name: string)
    requires name in cfg.shards
    ensures var g := GatherOne(m, name, cfg.shards[name], resolve);
      if Usable(cfg, resolve, name) then g == Routes(m[NormalizeToken(name) := Entry(cfg, resolve, name)])
      else g.Failed? && !g.error.Ok?
  {
  }

  lemma GatheredMore(cfg: Config, resolve: Resolver, rest: seq<string>, last: string, m: map<string, Route>)
    requires GatheredFrom(cfg, resolve, rest, m) && Usable(cfg, resolve, last)
    ensures GatheredFrom(cfg, resolve, rest + [last], m[NormalizeToken(last) := Entry(cfg, resolve, last)])
  {
    var order, n := rest + [last], m[NormalizeToken(last) := Entry(cfg, resolve, last)];
    forall k | k in n ensures EntryOfListed(cfg, resolve, order, k, n[k]) {
      if k == NormalizeToken(last) {
        assert last in order;
      } else {
        assert EntryOfListed(cfg, resolve, rest, k, m[k]);
      }
    }
  }

  lemma {:induction false} GatherResult(cfg: Config, resolve: Resolver, order: seq<string>)
    requires forall k | k in order :: k in cfg.shards
    ensures var g := Gather(cfg, resolve, order);
      && (g.Routes? <==> forall name | name in order :: Usable(cfg, resolve, name))
      && (g.Routes? ==> GatheredFrom(cfg, resolve, order, g.shards))
      && (g.Failed? ==> !g.error.Ok?)
    decreases |order|
  {
    if order != [] {
      var rest, last := order[..|order| - 1], order[|order| - 1];
      assert order == rest + [last];
      GatherResult(cfg, resolve, rest);
      var g := Gather(cfg, resolve, rest);
      if g.Routes? {
        GatherOneResult(g.shards, cfg, resolve, last);
        if Usable(cfg, resolve, last) { GatheredMore(cfg, resolve, rest, last, g.shards); }
      }
    }
  }

  lemma EntryShape(cfg: Config, resolve: Resolver, name: string)
    requires Usable(cfg, resolve, name)
    ensures var r := Entry(cfg, resolve, name);
      r.name == NormalizeToken(name) && Normal(r.name) && forall p | p in r.prefixes :: p != "" && Normal(p)
  {
    NormalizeTokenIdempotent(name);
    PrefixesAreNormal(cfg.shards[name].prefixes);
  }

  /** The listed prefixes a shard can be reached by. */
  ghost predicate ListsPrefix(c: ShardConfig, p: string) {
    p != "" && Names(c.prefixes, p)
  }

  /**
   The route of a configured shard, field by field: its own name stands in for a missing shard name and, except for
   the shard called default, for a missing prefix list.
   */
  lemma EntryFields(cfg: Config, resolve: Resolver, name: string)
    requires Usable(cfg, resolve, name)
    ensures var c, r := cfg.shards[name], Entry(cfg, resolve, name);
      && r.name == NormalizeToken(name) && r.target == c.target && resolve(c.target) == Some(r.address)
      && r.status == NormalizeToken(c.status)
      && r.shard == (if NormalizeToken(c.shard) == "" then r.name else NormalizeToken(c.shard))
      && (forall p :: p in r.prefixes <==>
            || ListsPrefix(c, p)
            || (p == r.name && r.name != "default" && forall q :: !ListsPrefix(c, q)))
  {
    var c, r := cfg.shards[name], Entry(cfg, resolve, name);
    PrefixesContents(c.prefixes);
    var ps := Prefixes(c.prefixes);
    if ps != [] {
      assert ps[0] in ps;
      assert ListsPrefix(c, ps[0]);
    }
    forall p ensures p in Prefixes(c.prefixes) <==> ListsPrefix(c, p) {}
  }

  /** The default shard is the configured one, or the one called default. */
  lemma DefaultNameMeans(cfg: Config)
    ensures NormalizeToken(cfg.defaultShard) != "" ==> DefaultName(cfg) == NormalizeToken(cfg.defaultShard)
    ensures NormalizeToken(cfg.defaultShard) == "" ==> DefaultName(cfg) == "default"
  {
  }

  /** The configured default, or the built-in one, is among the shards; or there are no shards at all. */
  ghost predicate DefaultConfigured(cfg: Config) {
    cfg.shards == map[] || exists name :: name in cfg.shards && NormalizeToken(name) == DefaultName(cfg)
  }

  /**
   For every iteration order, resolution succeeds exactly when every shard is usable and the default is
   configured, and a resolved snapshot has the shape routing relies on.
   */
  lemma ResolveResult(cfg: Config, resolve: Resolver, order: seq<string>)
    requires Listing(order, cfg.shards.Keys)
    ensures var r := ResolveOver(cfg, resolve, order);
      && (r.Ok? <==> (forall name | name in cfg.shards :: Usable(cfg, resolve, name)) && DefaultConfigured(cfg))
      && (r.Ok? ==> Resolved(r.snapshot) && GatheredFrom(cfg, resolve, order, r.snapshot.shards))
      && (r.Ok? ==> (r.snapshot.shards == map[] <==> cfg.shards == map[]))
  {
    GatherResult(cfg, resolve, order);
    NormalizeTokenIdempotent(cfg.defaultShard);
    assert Normal(DefaultName(cfg));
    var g := Gather(cfg, resolve, order);
    if g.Routes? {
      EmptyTogether(cfg, resolve, order, g.shards);
      GatheredShape(cfg, resolve, order, g.shards);
      DefaultGathered(cfg, resolve, order, g.shards);
    }
  }

  /** An error names a shard that really has that fault. */
  ghost predicate RightError(cfg: Config, resolve: Resolver, e: Resolution) {
    match e
    case Ok(_) => false
    case NameRequired => exists n :: n in cfg.shards && NormalizeToken(n) == ""
    case TargetRequired(n) => n in cfg.shards && NormalizeToken(n) != "" && cfg.shards[n].target == ""
    case Unresolved(t) =>
      t != "" && resolve(t).None? && exists n :: n in cfg.shards && NormalizeToken(n) != "" && cfg.shards[n].target == t
    case DefaultMissing(d) =>
      && d == DefaultName(cfg) && !DefaultConfigured(cfg) && forall n | n in cfg.shards :: Usable(cfg, resolve, n)
  }

  lemma {:induction false} GatherErrors(cfg: Config, resolve: Resolver, order: seq<string>)
    requires forall k | k in order :: k in cfg.shards
    ensures var g := Gather(cfg, resolve, order); g.Failed? ==> RightError(cfg, resolve, g.error)
    decreases |order|
  {
    if order != [] {
      var rest, last := order[..|order| - 1], order[|order| - 1];
      assert last in order && forall k | k in rest :: k in order;
      GatherErrors(cfg, resolve, rest);
    }
  }

  /** For every iteration order, resolution that fails reports a fault the configuration has. */
  lemma ResolveErrors(cfg: Config, resolve: Resolver, order: seq<string>)
    requires Listing(order, cfg.shards.Keys)
    ensures var r := ResolveOver(cfg, resolve, order); r.Ok? || RightError(cfg, resolve, r)
  {
    GatherErrors(cfg, resolve, order);
    if Gather(cfg, resolve, order).Routes? { MissingDefault(cfg, resolve, order); }
  }

  lemma MissingDefault(cfg: Config, resolve: Resolver, order: seq<string>)
    requires Listing(order, cfg.shards.Keys) && Gather(cfg, resolve, order).Routes?
    ensures var r := ResolveOver(cfg, resolve, order); r.Ok? || RightError(cfg, resolve, r)
  {
    AllUsable(cfg, resolve, order);
    ResolveResult(cfg, resolve, order);
    Concluded(cfg, Gather(cfg, resolve, order).shards);
  }

  lemma AllUsable(cfg: Config, resolve: Resolver, order: seq<string>)
    requires Listing(order, cfg.shards.Keys) && Gather(cfg, resolve, order).Routes?
    ensures forall n | n in cfg.shards :: Usable(cfg, resolve, n)
  {
    GatherResult(cfg, resolve, order);
    assert forall n | n in cfg.shards :: n in order;
  }

  lemma Concluded(cfg: Config, m: map<string, Route>)
    ensures Conclude(cfg, Routes(m)).Ok? || Conclude(cfg, Routes(m)) == DefaultMissing(DefaultName(cfg))
  {
  }

  lemma EmptyTogether(cfg: Config, resolve: Resolver, order: seq<string>, m: map<string, Route>)
    requires Listing(order, cfg.shards.Keys) && GatheredFrom(cfg, resolve, order, m)
    ensures m == map[] <==> cfg.shards == map[]
  {
    if m != map[] {
      var k :| k in m;
      assert EntryOfListed(cfg, resolve, order, k, m[k]);
    }
    if cfg.shards != map[] {
      var name :| name in cfg.shards;
      assert name in order;
      assert NormalizeToken(name) in m;
    }
  }

  lemma GatheredShape(cfg: Config, resolve: Resolver, order: seq<string>, m: map<string, Route>)
    requires GatheredFrom(cfg, resolve, order, m)
    ensures forall k | k in m :: m[k].name == k && k != "" && Normal(k)
    ensures forall k, p | k in m && p in m[k].prefixes :: p != "" && Normal(p)
  {
    forall k | k in m
      ensures m[k].name == k && k != "" && Normal(k) && forall p | p in m[k].prefixes :: p != "" && Normal(p)
    {
      assert EntryOfListed(cfg, resolve, order, k, m[k]);
      var name :| name in order && Usable(cfg, resolve, name) && NormalizeToken(name) == k
        && m[k] == Entry(cfg, resolve, name);
      EntryShape(cfg, resolve, name);
    }
  }

  lemma DefaultGathered(cfg: Config, resolve: Resolver, order: seq<string>, m: map<string, Route>)
    requires Listing(order, cfg.shards.Keys) && GatheredFrom(cfg, resolve, order, m)
    ensures DefaultName(cfg) in m <==> exists name :: name in cfg.shards && NormalizeToken(name) == DefaultName(cfg)
  {
    if DefaultName(cfg) in m {
      assert EntryOfListed(cfg, resolve, order, DefaultName(cfg), m[DefaultName(cfg)]);
      var name :| name in order && Usable(cfg, resolve, name) && NormalizeToken(name) == DefaultName(cfg);
      assert name in cfg.shards;
    }
    if name :| name in cfg.shards && NormalizeToken(name) == DefaultName(cfg) {
      assert name in order;
    }
  }

  /** Shards whose names normalise to the same token have the same entry. */
  ghost predicate NamesAgree(cfg: Config, resolve: Resolver) {
    forall a, b | Usable(cfg, resolve, a) && Usable(cfg, resolve, b) && NormalizeToken(a) == NormalizeToken(b) ::
      Entry(cfg, resolve, a) == Entry(cfg, resolve, b)
  }

  ghost predicate ResolveOrderIndependent(cfg: Config, resolve: Resolver) {
    forall o1, o2 | Listing(o1, cfg.shards.Keys) && Listing(o2, cfg.shards.Keys) ::
      ResolveOver(cfg, resolve, o1) == ResolveOver(cfg, resolve, o2)
  }

  lemma LastGathered(cfg: Config, resolve: Resolver, order: seq<string>)
    requires order != [] && forall k | k in order :: k in cfg.shards
    requires Gather(cfg, resolve, order).Routes?
    ensures var last, m := order[|order| - 1], Gather(cfg, resolve, order).shards;
      Usable(cfg, resolve, last) && NormalizeToken(last) in m && m[NormalizeToken(last)] == Entry(cfg, resolve, last)
  {
    var g, last := Gather(cfg, resolve, order[..|order| - 1]), order[|order| - 1];
    assert last in order;
    assert g.Routes?;
    GatherOneResult(g.shards, cfg, resolve, last);
  }

  lemma LastEntryWins(cfg: Config, resolve: Resolver, order: seq<string>)
    requires Listing(order, cfg.shards.Keys) && order != []
    requires ResolveOver(cfg, resolve, order).Ok?
    ensures var last := order[|order| - 1];
      && Usable(cfg, resolve, last)
      && NormalizeToken(last) in ResolveOver(cfg, resolve, order).snapshot.shards
      && ResolveOver(cfg, resolve, order).snapshot.shards[NormalizeToken(last)] == Entry(cfg, resolve, last)
  {
    GatherResult(cfg, resolve, order);
    LastGathered(cfg, resolve, order);
  }

  lemma SameEntries(cfg: Config, resolve: Resolver, o1: seq<string>, o2: seq<string>, m1: map<string, Route>,
                    m2: map<string, Route>, k: string)
    requires Listing(o1, cfg.shards.Keys) && Listing(o2, cfg.shards.Keys) && NamesAgree(cfg, resolve)
    requires GatheredFrom(cfg, resolve, o1, m1) && GatheredFrom(cfg, resolve, o2, m2) && k in m1
    ensures k in m2 && m1[k] == m2[k]
  {
    assert EntryOfListed(cfg, resolve, o1, k, m1[k]);
    var name :| name in o1 && Usable(cfg, resolve, name) && NormalizeToken(name) == k
      && m1[k] == Entry(cfg, resolve, name);
    assert name in o2;
    assert EntryOfListed(cfg, resolve, o2, k, m2[k]);
  }

  lemma SameResolution(cfg: Config, resolve: Resolver, o1: seq<string>, o2: seq<string>)
    requires Listing(o1, cfg.shards.Keys) && Listing(o2, cfg.shards.Keys)
    requires NamesAgree(cfg, resolve) && forall name | name in cfg.shards :: Usable(cfg, resolve, name)
    ensures ResolveOver(cfg, resolve, o1) == ResolveOver(cfg, resolve, o2)
  {
    GatherResult(cfg, resolve, o1);
    GatherResult(cfg, resolve, o2);
    SameGathered(cfg, resolve, o1, o2, Gather(cfg, resolve, o1).shards, Gather(cfg, resolve, o2).shards);
  }

  lemma SameGathered(cfg: Config, resolve: Resolver, o1: seq<string>, o2: seq<string>, m1: map<string, Route>,
                     m2: map<string, Route>)
    requires Listing(o1, cfg.shards.Keys) && Listing(o2, cfg.shards.Keys) && NamesAgree(cfg, resolve)
    requires GatheredFrom(cfg, resolve, o1, m1) && GatheredFrom(cfg, resolve, o2, m2)
    ensures m1 == m2
  {
    forall k | k in m1 ensures k in m2 && m1[k] == m2[k] { SameEntries(cfg, resolve, o1, o2, m1, m2, k); }
    forall k | k in m2 ensures k in m1 { SameEntries(cfg, resolve, o2, o1, m2, m1, k); }
  }

  /** A configuration that resolves gives one snapshot for every order exactly when clashing names agree. */
  lemma ResolveOrderIndependentIff(cfg: Config, resolve: Resolver)
    requires DefaultConfigured(cfg) && forall name | name in cfg.shards :: Usable(cfg, resolve, name)
    ensures ResolveOrderIndependent(cfg, resolve) <==> NamesAgree(cfg, resolve)
  {
    if NamesAgree(cfg, resolve) {
      forall o1, o2 | Listing(o1, cfg.shards.Keys) && Listing(o2, cfg.shards.Keys)
        ensures ResolveOver(cfg, resolve, o1) == ResolveOver(cfg, resolve, o2)
      {
        SameResolution(cfg, resolve, o1, o2);
      }
    }
    if ResolveOrderIndependent(cfg, resolve) {
      forall a, b | Usable(cfg, resolve, a) && Usable(cfg, resolve, b) && NormalizeToken(a) == NormalizeToken(b)
        ensures Entry(cfg, resolve, a) == Entry(cfg, resolve, b)
      {
        var _, o1 := ListingsAround(cfg.shards.Keys, a);
        var _, o2 := ListingsAround(cfg.shards.Keys, b);
        ResolveResult(cfg, resolve, o1);
        ResolveResult(cfg, resolve, o2);
        LastEntryWins(cfg, resolve, o1);
        LastEntryWins(cfg, resolve, o2);
      }
    }
  }

  /** Two names that normalise alike: the snapshot keeps whichever is iterated last. */
  lemma ClashingNamesDependOnOrder(upper: ShardConfig, lower: ShardConfig, resolve: Resolver)
    requires upper.target != "" && lower.target != "" && upper.target != lower.target
    requires resolve(upper.target).Some? && resolve(lower.target).Some?
    ensures var cfg := Config("v1", "a", map["A" := upper, "a" := lower]);
      && Listing(["A", "a"], cfg.shards.Keys) && Listing(["a", "A"], cfg.shards.Keys)
      && KeepsTarget(cfg, resolve, ["A", "a"], lower.target) && KeepsTarget(cfg, resolve, ["a", "A"], upper.target)
  {
    var cfg := Config("v1", "a", map["A" := upper, "a" := lower]);
    UpperCaseName();
    assert Usable(cfg, resolve, "A") && Usable(cfg, resolve, "a");
    LastNameKept(cfg, resolve, ["A", "a"]);
    LastNameKept(cfg, resolve, ["a", "A"]);
  }

  /** Resolution succeeds and the route named a has this target. */
  predicate KeepsTarget(cfg: Config, resolve: Resolver, order: seq<string>, target: string)
    requires forall k | k in order :: k in cfg.shards
  {
    var r := ResolveOver(cfg, resolve, order);
    r.Ok? && "a" in r.snapshot.shards && r.snapshot.shards["a"].target == target
  }

  lemma LastNameKept(cfg: Config, resolve: Resolver, order: seq<string>)
    requires cfg.shards.Keys == {"A", "a"} && Listing(order, cfg.shards.Keys) && order != [] && cfg.defaultShard == "a"
    requires Usable(cfg, resolve, "A") && Usable(cfg, resolve, "a")
    ensures var last := order[|order| - 1];
      last in cfg.shards && KeepsTarget(cfg, resolve, order, cfg.shards[last].target)
  {
    var last := order[|order| - 1];
    assert last in order;
    assert last == "A" || last == "a";
    UpperCaseName();
    BothNamesResolve(cfg, resolve, order);
    LastEntryWins(cfg, resolve, order);
  }

  lemma BothNamesResolve(cfg: Config, resolve: Resolver, order: seq<string>)
    requires cfg.shards.Keys == {"A", "a"} && Listing(order, cfg.shards.Keys) && cfg.defaultShard == "a"
    requires Usable(cfg, resolve, "A") && Usable(cfg, resolve, "a")
    ensures ResolveOver(cfg, resolve, order).Ok?
  {
    UpperCaseName();
    assert "a" in cfg.shards && NormalizeToken("a") == DefaultName(cfg);
    assert DefaultConfigured(cfg);
    ResolveResult(cfg, resolve, order);
  }

  lemma UpperCaseName()
    ensures NormalizeToken("A") == "a" && NormalizeToken("a") == "a"
  {
    assert Trim("A") == "A";
    assert Fold("A")[0] == 'a';
    NormalIsFixed("a");
  }

  lemma {:induction false} FailedStays(cfg: Config, resolve: Resolver, order: seq<string>, more: seq<string>)
    requires forall k | k in order + more :: k in cfg.shards
    requires forall k | k in order :: k in cfg.shards
    requires Gather(cfg, resolve, order).Failed?
    ensures Gather(cfg, resolve, order + more) == Gather(cfg, resolve, order)
    decreases |more|
  {
    if more == [] {
      assert order + more == order;
    } else {
      var rest := more[..|more| - 1];
      assert (order + more)[..|order + more| - 1] == order + rest;
      assert forall k | k in order + rest :: k in order + more;
      FailedStays(cfg, resolve, order, rest);
    }
  }

  /** An early return is what some full iteration order gives. */
  lemma FailureStands(cfg: Config, resolve: Resolver, order: seq<string>, rest: set<string>)
    requires Distinct(order) && rest <= cfg.shards.Keys && forall k :: k in order <==> k in cfg.shards && k !in rest
    requires Gather(cfg, resolve, order).Failed?
    ensures exists full :: Listing(full, cfg.shards.Keys) && Gather(cfg, resolve, full) == Gather(cfg, resolve, order)
  {
    var others := SomeListing(rest);
    DistinctConcat(order, others);
    assert Listing(order + others, cfg.shards.Keys);
    FailedStays(cfg, resolve, order, others);
  }

  /** resolveConfigSnapshot, with the early returns of its loop over the configured shards. */
  method ResolveConfigSnapshot(cfg: Config, resolve: Resolver) returns (r: Resolution)
    ensures exists order :: Listing(order, cfg.shards.Keys) && r == ResolveOver(cfg, resolve, order)
  {
    var shards: map<string, Route> := map[];
    var rest := cfg.shards.Keys;
    ghost var order: seq<string> := [];
    while rest != {}
      invariant Distinct(order) && forall k :: k in order <==> k in cfg.shards && k !in rest
      invariant rest <= cfg.shards.Keys
      invariant Gather(cfg, resolve, order) == Routes(shards)
      decreases |rest|
    {
      var name :| name in rest;
      rest := rest - {name};
      assert (order + [name])[..|order|] == order;
      order := order + [name];
      var g := GatherOne(shards, name, cfg.shards[name], resolve);
      if g.Failed? {
        FailureStands(cfg, resolve, order, rest);
        return g.error;
      }
      shards := g.shards;
    }
    assert Listing(order, cfg.shards.Keys);
    r := Conclude(cfg, Routes(shards));
  }

  // ---------------------------------------------------------------------------------------------
  // Tags

  type Digest = b: Bytes | |b| == 32 witness seq(32, _ => 0)

  function HexDigit(d: int): char
    requires 0 <= d < 16
  {
    if d < 10 then ('0' as int + d) as char else ('a' as int + d - 10) as char
  }

  function Hex(b: Bytes): (s: string)
    ensures |s| == 2 * |b|
    ensures forall i | 0 <= i < |s| :: '0' <= s[i] <= '9' || 'a' <= s[i] <= 'f'
  {
    if b == [] then [] else [HexDigit(b[0] / 16), HexDigit(b[0] % 16)] + Hex(b[1..])
  }

  type Headers = map<string, string>

  function Header(h: Headers, name: string): string {
    if name in h then h[name] else ""
  }

  /** The tag and where it came from; both empty when no header gives one. */
  function DeriveTag(h: Headers, digest: string -> Digest): (string, string) {
    if NormalizeToken(Header(h, TAG_HEADER)) != "" then (NormalizeToken(Header(h, TAG_HEADER)), "tag")
    else if Trim(Header(h, BYOK_KEY_HEADER)) != "" then (Hex(digest(Trim(Header(h, BYOK_KEY_HEADER)))), "byok-key-id")
    else if Trim(Header(h, USER_KEY_HEADER)) != "" then (Hex(digest(Trim(Header(h, USER_KEY_HEADER)))), "user-key")
    else if NormalizeToken(Header(h, TENANT_HEADER)) != "" then (NormalizeToken(Header(h, TENANT_HEADER)), "tenant")
    else ("", "")
  }

  /** The digits of a hexadecimal text are the high and the low half of each byte, in order. */
  lemma {:induction false} HexMeans(b: Bytes, i: nat)
    requires i < |b|
    ensures HexValue(Hex(b)[2 * i]) * 16 + HexValue(Hex(b)[2 * i + 1]) == b[i]
  {
    if i > 0 { HexMeans(b[1..], i - 1); }
  }

  function HexValue(c: char): int {
    if '0' <= c <= '9' then c as int - '0' as int else c as int - 'a' as int + 10
  }

  /** Where a tag may come from, in order of precedence: the header, the name of the source, and the tag it gives. */
  ghost function TagSources(h: Headers, digest: string -> Digest): seq<(string, string)> {
    var key, user := Trim(Header(h, "x-byok-key-id")), Trim(Header(h, "x-user-key"));
    [(NormalizeToken(Header(h, "x-transit-tag")), "tag"),
     (if key == "" then "" else Hex(digest(key)), "byok-key-id"),
     (if user == "" then "" else Hex(digest(user)), "user-key"),
     (NormalizeToken(Header(h, "x-tenant")), "tenant")]
  }

  /** The derived tag is the first source that gives one: explicit tag, key id, user key, tenant. */
  lemma TagPrecedence(h: Headers, digest: string -> Digest, i: nat)
    requires i < 4 && TagSources(h, digest)[i].0 != "" && forall j | 0 <= j < i :: TagSources(h, digest)[j].0 == ""
    ensures DeriveTag(h, digest) == TagSources(h, digest)[i]
  {
    var t := TagSources(h, digest);
    assert i > 0 ==> t[0].0 == "";
    assert i > 1 ==> t[1].0 == "";
    assert i > 2 ==> t[2].0 == "";
    HashIsNotEmpty(h, digest);
  }

  lemma HashIsNotEmpty(h: Headers, digest: string -> Digest)
    ensures forall v :: Hex(digest(v)) != ""
  {
    forall v ensures Hex(digest(v)) != "" { assert |Hex(digest(v))| == 64; }
  }

  /** Without any source the default shard's name is the tag. */
  lemma TagDefault(snap: Snapshot, h: Headers, digest: string -> Digest)
    requires forall j | 0 <= j < 4 :: TagSources(h, digest)[j].0 == ""
    ensures DeriveTag(h, digest) == ("", "") && DecidedTag(snap, h, digest) == (snap.defaultShard, "default")
  {
    var t := TagSources(h, digest);
    assert t[0].0 == "" && t[1].0 == "" && t[2].0 == "" && t[3].0 == "";
    HashIsNotEmpty(h, digest);
  }

  lemma DerivedTagIsNormal(h: Headers, digest: string -> Digest)
    ensures Normal(DeriveTag(h, digest).0)
  {
    NormalizeTokenIdempotent(Header(h, TAG_HEADER));
    NormalizeTokenIdempotent(Header(h, TENANT_HEADER));
  }

  /** The tag a snapshot's decision uses: the derived one, or the default shard's name. */
  function DecidedTag(snap: Snapshot, h: Headers, digest: string -> Digest): (string, string) {
    var t := DeriveTag(h, digest);
    if t.0 == "" then (snap.defaultShard, "default") else t
  }

  function DecideOver(snap: Snapshot, h: Headers, digest: string -> Digest, order: seq<string>): Option<Decision>
    requires forall k | k in order :: k in snap.shards
  {
    var t := DecidedTag(snap, h, digest);
    match ChooseOver(snap, t.0, order)
    case None => None
    case Some(route) => Some(Decision(t.0, t.1, route))
  }

  /** On a resolved snapshot a decision is made exactly when there are shards, whatever the headers and the order. */
  lemma DecideSucceedsIff(snap: Snapshot, h: Headers, digest: string -> Digest, order: seq<string>)
    requires Resolved(snap) && Listing(order, snap.shards.Keys)
    ensures var d := DecideOver(snap, h, digest, order);
      && (d.Some? <==> snap.shards != map[])
      && (d.Some? ==> d.value.tag != "" && Normal(d.value.tag))
      && (d.Some? ==> d.value.route.name in snap.shards && snap.shards[d.value.route.name] == d.value.route)
  {
    DerivedTagIsNormal(h, digest);
    ChosenRoute(snap, DecidedTag(snap, h, digest).0, order);
  }

  /** The request headers the upstream filter writes. */
  function Stamp(h: Headers, d: Decision, version: string): Headers {
    var tagged := h[TAG_HEADER := d.tag][TAG_SOURCE_HEADER := d.source];
    var stamped := tagged[SHARD_HEADER := d.route.shard][TARGET_HEADER := d.route.target];
    if version == "" then stamped else stamped[VERSION_HEADER := version]
  }

  /** The headers a stamped request carries; all others stay as they were. */
  lemma StampedHeaders(h: Headers, d: Decision, version: string, name: string)
    ensures Header(Stamp(h, d, version), name) ==
      if name == "x-transit-tag" then d.tag
      else if name == "x-transit-tag-source" then d.source
      else if name == "x-transit-l1-shard" then d.route.shard
      else if name == "x-transit-l1-target" then d.route.target
      else if name == "x-cluster-shard-router-version" && version != "" then version
      else Header(h, name)
  {
  }

  lemma StampedTag(snap: Snapshot, h: Headers, d: Decision, digest: string -> Digest)
    requires d.tag != "" && Normal(d.tag)
    ensures DecidedTag(snap, Stamp(h, d, snap.version), digest) == (d.tag, "tag")
  {
    assert Header(Stamp(h, d, snap.version), TAG_HEADER) == d.tag;
    NormalIsFixed(d.tag);
  }

  /** The decision made in order o1, stamped on the request, is made again in order o2. */
  ghost predicate Restamped(snap: Snapshot, h: Headers, digest: string -> Digest, o1: seq<string>, o2: seq<string>)
    requires Listing(o1, snap.shards.Keys) && Listing(o2, snap.shards.Keys)
  {
    var d := DecideOver(snap, h, digest, o1);
    d.Some? && DecideOver(snap, Stamp(h, d.value, snap.version), digest, o2) == Some(d.value.(source := "tag"))
  }

  lemma RestampedIff(snap: Snapshot, h: Headers, digest: string -> Digest, o1: seq<string>, o2: seq<string>)
    requires Resolved(snap) && snap.shards != map[]
    requires Listing(o1, snap.shards.Keys) && Listing(o2, snap.shards.Keys)
    ensures Restamped(snap, h, digest, o1, o2) <==> SameChoice(snap, DecidedTag(snap, h, digest).0, o1, o2)
  {
    DecideSucceedsIff(snap, h, digest, o1);
    var d := DecideOver(snap, h, digest, o1).value;
    StampedTag(snap, h, d, digest);
    DecideSucceedsIff(snap, Stamp(h, d, snap.version), digest, o2);
  }

  ghost predicate StampIsStable(snap: Snapshot, h: Headers, digest: string -> Digest) {
    forall o1, o2 | Listing(o1, snap.shards.Keys) && Listing(o2, snap.shards.Keys) :: Restamped(snap, h, digest, o1, o2)
  }

  /**
   Deciding again on the stamped headers gives the same tag and route for every pair of orders exactly when the
   longest claimants of the tag are one route.
   */
  lemma StampIsStableIff(snap: Snapshot, h: Headers, digest: string -> Digest)
    requires Resolved(snap) && snap.shards != map[]
    ensures StampIsStable(snap, h, digest)
      <==> ClaimantsAgree(snap.shards, NormalizeToken(DecidedTag(snap, h, digest).0))
  {
    var tag := DecidedTag(snap, h, digest).0;
    OrderIndependentIff(snap, tag);
    if OrderIndependent(snap, tag) {
      forall o1, o2 | Listing(o1, snap.shards.Keys) && Listing(o2, snap.shards.Keys)
        ensures Restamped(snap, h, digest, o1, o2) {
        assert SameChoice(snap, tag, o1, o2);
        RestampedIff(snap, h, digest, o1, o2);
      }
    }
    if StampIsStable(snap, h, digest) {
      forall o1, o2 | Listing(o1, snap.shards.Keys) && Listing(o2, snap.shards.Keys)
        ensures SameChoice(snap, tag, o1, o2) {
        assert Restamped(snap, h, digest, o1, o2);
        RestampedIff(snap, h, digest, o1, o2);
      }
    }
  }

  /** With no shared prefix, stamping is stable for all headers. */
  lemma UnsharedStampIsStable(snap: Snapshot, h: Headers, digest: string -> Digest)
    requires Resolved(snap) && snap.shards != map[] && NoSharedPrefix(snap.shards)
    ensures StampIsStable(snap, h, digest)
  {
    UnsharedAgree(snap.shards, NormalizeToken(DecidedTag(snap, h, digest).0));
    StampIsStableIff(snap, h, digest);
  }

  /** The store that routes requests over the last published snapshot. */
  class ShardStore {
    var current: Snapshot

    constructor ()
      ensures current == Snapshot("", "", map[])
    {
      current := Snapshot("", "", map[]);
    }

    method Publish(snap: Snapshot)
      modifies this
      ensures current == snap
    {
      current := snap;
    }

    /** A decision over the published snapshot, in whatever order its shards are iterated. */
    method Decide(h: Headers, digest: string -> Digest) returns (d: Option<Decision>)
      ensures exists order :: Listing(order, current.shards.Keys) && d == DecideOver(current, h, digest, order)
    {
      var t := DeriveTag(h, digest);
      var tag, source := t.0, t.1;
      if tag == "" { tag, source := current.defaultShard, "default"; }
      var route := ChooseShard(current, tag);
      match route
      case None => d := None;
      case Some(r) => d := Some(Decision(tag, source, r));
    }
  }
}
