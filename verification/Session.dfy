/**
 Composite session ids of examples/mcp-profile-router/session.go: a delimiter-based printer and parser with
 base64 backend values. Strings are byte strings, as in Go.
 */
module Sessions {
  import opened Common
  import Base64

  const AT: byte := 64
  const COMMA: byte := 44
  const COLON: byte := 58

  datatype Session = Session(route: Bytes, profile: Bytes, subject: Bytes, backends: map<Bytes, Bytes>)

  datatype Decoded = Ok(session: Session) | InvalidSession | InvalidEntry | BadBase64(backend: Bytes)

  // ---------------------------------------------------------------------------------------------
  // Order on strings

  predicate Less(a: Bytes, b: Bytes) {
    b != [] && (a == [] || a[0] < b[0] || (a[0] == b[0] && Less(a[1..], b[1..])))
  }

  lemma {:induction false} LessTotal(a: Bytes, b: Bytes)
    ensures Less(a, b) || a == b || Less(b, a)
    ensures !(Less(a, b) && Less(b, a)) && !Less(a, a)
  {
    if a != [] && b != [] && a[0] == b[0] {
      LessTotal(a[1..], b[1..]);
      assert a == [a[0]] + a[1..] && b == [b[0]] + b[1..];
    }
    if a != [] { LessIrreflexive(a); }
  }

  lemma {:induction false} LessIrreflexive(a: Bytes)
    ensures !Less(a, a)
  {
    if a != [] { LessIrreflexive(a[1..]); }
  }

  lemma {:induction false} LessTransitive(a: Bytes, b: Bytes, c: Bytes)
    requires Less(a, b) && Less(b, c)
    ensures Less(a, c)
  {
    if a != [] && a[0] == b[0] == c[0] { LessTransitive(a[1..], b[1..], c[1..]); }
  }

  predicate Leq(a: Bytes, b: Bytes) {
    a == b || Less(a, b)
  }

  ghost predicate Sorted(ks: seq<Bytes>) {
    forall i, j | 0 <= i < j < |ks| :: Less(ks[i], ks[j])
  }

  function ToSet(ks: seq<Bytes>): set<Bytes> {
    set k | k in ks
  }

  /** A set of strings has only one strictly sorted listing, so encodings that list keys sorted are canonical. */
  lemma {:induction false} SortedUnique(a: seq<Bytes>, b: seq<Bytes>)
    requires Sorted(a) && Sorted(b) && ToSet(a) == ToSet(b)
    ensures a == b
    decreases |a|
  {
    if b != [] {
      assert b[0] in ToSet(b);
      assert b[0] in a;
    }
    if a != [] {
      assert a[0] in ToSet(a);
      assert b[0] in ToSet(b);
      LessTotal(a[0], b[0]);
      var i :| 0 <= i < |b| && b[i] == a[0];
      var j :| 0 <= j < |a| && a[j] == b[0];
      assert a[0] == b[0];
      forall k ensures k in a[1..] <==> k in b[1..] {
        SortedTail(a, k);
        SortedTail(b, k);
        assert k in a <==> k in ToSet(a);
        assert k in b <==> k in ToSet(b);
      }
      assert ToSet(a[1..]) == ToSet(b[1..]);
      SortedUnique(a[1..], b[1..]);
    }
  }

  lemma SortedTail(a: seq<Bytes>, k: Bytes)
    requires Sorted(a) && a != []
    ensures k in a[1..] <==> k in a && k != a[0]
  {
    LessIrreflexive(a[0]);
    if k in a[1..] {
      var i :| 1 <= i < |a| && a[i] == k;
    }
  }

  lemma {:induction false} LeastOf(s: set<Bytes>) returns (m: Bytes)
    requires s != {}
    ensures m in s && forall x | x in s :: x == m || Less(m, x)
    decreases |s|
  {
    var y :| y in s;
    var rest := s - {y};
    assert s == rest + {y};
    if rest == {} {
      m := y;
    } else {
      var n := LeastOf(rest);
      LessTotal(y, n);
      m := if Less(y, n) then y else n;
      forall x | x in s ensures x == m || Less(m, x) {
        if x in rest && Less(y, n) && x != n { LessTransitive(y, n, x); }
      }
    }
  }

  lemma LeastExists(s: set<Bytes>)
    requires s != {}
    ensures exists m :: m in s && forall x | x in s :: x == m || Less(m, x)
  {
    var m := LeastOf(s);
  }

  lemma ConsSorted(m: Bytes, rest: seq<Bytes>)
    requires Sorted(rest) && forall x | x in ToSet(rest) :: Less(m, x)
    ensures Sorted([m] + rest) && ToSet([m] + rest) == {m} + ToSet(rest)
  {
    assert forall i | 0 <= i < |rest| :: rest[i] in ToSet(rest);
  }

  /** The keys in increasing order. */
  ghost function SortedKeys(s: set<Bytes>): (ks: seq<Bytes>)
    ensures ToSet(ks) == s && Sorted(ks)
    decreases |s|
  {
    if s == {} then []
    else
      LeastExists(s);
      var m :| m in s && forall x | x in s :: x == m || Less(m, x);
      var rest := SortedKeys(s - {m});
      ConsSorted(m, rest);
      [m] + rest
  }

  // ---------------------------------------------------------------------------------------------
  // Printing

  function EntryOf(id: Bytes, value: Bytes): Bytes {
    id + [COLON] + Base64.Encode(value)
  }

  function Entries(ks: seq<Bytes>, backends: map<Bytes, Bytes>): seq<Bytes>
    requires forall k | k in ks :: k in backends
  {
    seq(|ks|, i requires 0 <= i < |ks| => EntryOf(ks[i], backends[ks[i]]))
  }

  /** Entries separated by commas. */
  function JoinComma(es: seq<Bytes>): Bytes {
    if es == [] then [] else if |es| == 1 then es[0] else es[0] + [COMMA] + JoinComma(es[1..])
  }

  datatype Parts = Parts(route: Bytes, profile: Bytes, subject: Bytes, tail: Bytes)

  /** The four parts with '@' between them. */
  function Wrap(p: Parts): Bytes {
    p.route + [AT] + (p.profile + [AT] + (p.subject + [AT] + p.tail))
  }

  function EncodeListed(s: Session, ks: seq<Bytes>): Bytes
    requires forall k | k in ks :: k in s.backends
  {
    Wrap(Parts(s.route, s.profile, s.subject, JoinComma(Entries(ks, s.backends))))
  }

  ghost function Encode(s: Session): Bytes {
    var ks := SortedKeys(s.backends.Keys);
    assert forall k | k in ks :: k in ToSet(ks);
    EncodeListed(s, ks)
  }

  // ---------------------------------------------------------------------------------------------
  // Parsing

  /** First position of a byte from i on; |s| when absent. */
  function IndexFrom(s: Bytes, c: byte, i: nat): (j: nat)
    requires i <= |s|
    ensures i <= j <= |s| && (j < |s| ==> s[j] == c)
    ensures forall k | i <= k < j :: s[k] != c
    decreases |s| - i
  {
    if i == |s| || s[i] == c then i else IndexFrom(s, c, i + 1)
  }

  /** One past the last position of a byte before i; 0 when absent. */
  function LastBefore(s: Bytes, c: byte, i: nat): (j: nat)
    requires i <= |s|
    ensures j <= i && (j > 0 ==> s[j - 1] == c)
    ensures forall k | j <= k < i :: s[k] != c
  {
    if i == 0 || s[i - 1] == c then i else LastBefore(s, c, i - 1)
  }

  /** strings.Index of one byte; |s| when absent. */
  function Index(s: Bytes, c: byte): (j: nat)
    ensures j <= |s| && (j < |s| ==> s[j] == c)
    ensures forall k | 0 <= k < j :: s[k] != c
  {
    IndexFrom(s, c, 0)
  }

  /** One past strings.LastIndex of one byte; 0 when absent. */
  function AfterLast(s: Bytes, c: byte): (j: nat)
    ensures j <= |s| && (j > 0 ==> s[j - 1] == c)
    ensures forall k | j <= k < |s| :: s[k] != c
  {
    LastBefore(s, c, |s|)
  }

  /** strings.Split on a comma. */
  function Split(s: Bytes): (es: seq<Bytes>)
    ensures es != []
    decreases |s|
  {
    var i := Index(s, COMMA);
    if i == |s| then [s] else [s[..i]] + Split(s[i + 1..])
  }

  function DecodeEntries(es: seq<Bytes>, acc: map<Bytes, Bytes>, s: Session): Decoded
    decreases |es|
  {
    if es == [] then Ok(s.(backends := acc))
    else
      var i := Index(es[0], COLON);
      var id := es[0][..i];
      if i == |es[0]| || id == [] then InvalidEntry
      else
        match Base64.Decode(es[0][i + 1..])
        case None => BadBase64(id)
        case Some(v) => DecodeEntries(es[1..], acc[id := v], s)
  }

  /** Route up to the first '@', profile up to the second, subject up to the last. */
  function Cut(raw: Bytes): Option<Parts> {
    var first := Index(raw, AT);
    if first == |raw| then None
    else
      var second := first + 1 + Index(raw[first + 1..], AT);
      if second == |raw| then None
      else
        var after := AfterLast(raw, AT);
        if after <= second + 1 then None
        else Some(Parts(raw[..first], raw[first + 1..second], raw[second + 1..after - 1], raw[after..]))
  }

  function DecodeParts(p: Parts): Decoded {
    var s := Session(p.route, p.profile, p.subject, map[]);
    if p.tail == [] then Ok(s) else DecodeEntries(Split(p.tail), map[], s)
  }

  function Decode(raw: Bytes): Decoded {
    match Cut(raw)
    case None => InvalidSession
    case Some(p) => DecodeParts(p)
  }

  // ---------------------------------------------------------------------------------------------
  // Round trip

  predicate GoodId(id: Bytes) {
    id != [] && AT !in id && COMMA !in id && COLON !in id
  }

  /** What the format can carry: no '@' in route and profile, and non-empty backend ids without '@', ',' or ':'. */
  predicate WellFormed(s: Session) {
    && AT !in s.route && AT !in s.profile
    && forall id | id in s.backends :: GoodId(id)
  }

  lemma IndexIs(a: Bytes, c: byte, b: Bytes)
    requires c !in a
    ensures Index(a + [c] + b, c) == |a|
  {
    var s := a + [c] + b;
    assert s[|a|] == c && forall k | 0 <= k < |a| :: s[k] == a[k];
  }

  lemma IndexAbsent(s: Bytes, c: byte)
    requires c !in s
    ensures Index(s, c) == |s|
  {
  }

  lemma {:induction false} SplitJoin(es: seq<Bytes>)
    requires es != [] && forall e | e in es :: COMMA !in e
    ensures Split(JoinComma(es)) == es
  {
    if |es| == 1 {
      IndexAbsent(es[0], COMMA);
      assert es == [es[0]];
    } else {
      var rest := JoinComma(es[1..]);
      var s := es[0] + [COMMA] + rest;
      IndexIs(es[0], COMMA, rest);
      assert s[..|es[0]|] == es[0] && s[|es[0]| + 1..] == rest;
      SplitJoin(es[1..]);
    }
  }

  lemma {:induction false} JoinCharacters(es: seq<Bytes>, c: byte)
    requires c != COMMA && forall e | e in es :: c !in e
    ensures c !in JoinComma(es)
  {
    if |es| > 1 { JoinCharacters(es[1..], c); }
  }

  lemma EntryCharacters(id: Bytes, value: Bytes)
    requires GoodId(id)
    ensures AT !in EntryOf(id, value) && COMMA !in EntryOf(id, value)
  {
    Base64.EncodedCharacters(value);
  }

  function Restrict(m: map<Bytes, Bytes>, ks: seq<Bytes>): map<Bytes, Bytes>
    requires forall k | k in ks :: k in m
  {
    map k | k in ks :: m[k]
  }

  /** One printed entry parses to its id and value. */
  lemma FirstEntry(id: Bytes, value: Bytes, es: seq<Bytes>, acc: map<Bytes, Bytes>, s: Session)
    requires GoodId(id)
    ensures DecodeEntries([EntryOf(id, value)] + es, acc, s) == DecodeEntries(es, acc[id := value], s)
  {
    var e := EntryOf(id, value);
    IndexIs(id, COLON, Base64.Encode(value));
    assert e[..|id|] == id;
    assert e[|id| + 1..] == Base64.Encode(value);
    Base64.RoundTrip(value);
    var all := [e] + es;
    assert all[0] == e && all[1..] == es;
  }

  lemma {:induction false} EntriesDecode(ks: seq<Bytes>, m: map<Bytes, Bytes>, acc: map<Bytes, Bytes>, s: Session)
    requires forall k | k in ks :: k in m && GoodId(k)
    ensures DecodeEntries(Entries(ks, m), acc, s) == Ok(s.(backends := acc + Restrict(m, ks)))
    decreases |ks|
  {
    if ks == [] {
      assert acc + Restrict(m, ks) == acc;
    } else {
      var k := ks[0];
      assert Entries(ks, m) == [EntryOf(k, m[k])] + Entries(ks[1..], m);
      FirstEntry(k, m[k], Entries(ks[1..], m), acc, s);
      EntriesDecode(ks[1..], m, acc[k := m[k]], s);
      RestrictMore(m, ks, acc);
    }
  }

  lemma RestrictMore(m: map<Bytes, Bytes>, ks: seq<Bytes>, acc: map<Bytes, Bytes>)
    requires ks != [] && forall k | k in ks :: k in m
    ensures acc[ks[0] := m[ks[0]]] + Restrict(m, ks[1..]) == acc + Restrict(m, ks)
  {
  }

  /** The tail that lists the backends in any order parses back to them. */
  lemma TailDecodes(s: Session, ks: seq<Bytes>)
    requires WellFormed(s) && ToSet(ks) == s.backends.Keys
    requires forall k | k in ks :: k in s.backends
    ensures var tail := JoinComma(Entries(ks, s.backends));
      AT !in tail && DecodeParts(Parts(s.route, s.profile, s.subject, tail)) == Ok(s)
  {
    var es := Entries(ks, s.backends);
    forall e | e in es ensures e != [] && AT !in e && COMMA !in e {
      var i :| 0 <= i < |es| && es[i] == e;
      EntryCharacters(ks[i], s.backends[ks[i]]);
    }
    JoinCharacters(es, AT);
    assert Restrict(s.backends, ks) == s.backends by {
      assert forall k | k in s.backends :: k in ToSet(ks);
    }
    if ks == [] {
      assert s.backends == map[];
    } else {
      TailNotEmpty(es);
      SplitJoin(es);
      EntriesDecode(ks, s.backends, map[], Session(s.route, s.profile, s.subject, map[]));
      assert map[] + s.backends == s.backends;
    }
  }

  /** Any listing of the backends decodes to the session. */
  lemma ListedRoundTrip(s: Session, ks: seq<Bytes>)
    requires WellFormed(s) && ToSet(ks) == s.backends.Keys
    requires forall k | k in ks :: k in s.backends
    ensures Decode(EncodeListed(s, ks)) == Ok(s)
  {
    TailDecodes(s, ks);
    CutWrap(Parts(s.route, s.profile, s.subject, JoinComma(Entries(ks, s.backends))));
  }

  lemma TailNotEmpty(es: seq<Bytes>)
    requires es != [] && forall e | e in es :: e != []
    ensures JoinComma(es) != []
  {
    assert es[0] in es;
  }

  lemma Middle(a: Bytes, b: Bytes, c: Bytes)
    ensures (a + b + c)[|a|..|a| + |b|] == b
  {
  }

  lemma Suffix(a: Bytes, b: Bytes)
    ensures (a + b)[|a|..] == b
  {
  }

  lemma RouteAndProfileSlices(p: Parts)
    ensures var raw, first, second := Wrap(p), |p.route|, |p.route| + 1 + |p.profile|;
      && raw[..first] == p.route
      && raw[first + 1..] == p.profile + [AT] + (p.subject + [AT] + p.tail)
      && raw[first + 1..second] == p.profile
  {
    var after := [AT] + (p.subject + [AT] + p.tail);
    Suffix(p.route + [AT], p.profile + [AT] + (p.subject + [AT] + p.tail));
    Middle(p.route + [AT], p.profile, after);
    assert Wrap(p) == p.route + [AT] + p.profile + after;
  }

  lemma SubjectAndTailSlices(p: Parts)
    ensures var raw, second := Wrap(p), |p.route| + 1 + |p.profile|;
      && |raw| == second + 1 + |p.subject| + 1 + |p.tail|
      && raw[second + 1..second + 1 + |p.subject|] == p.subject
      && raw[second + 1 + |p.subject| + 1..] == p.tail
  {
    var before := p.route + [AT] + (p.profile + [AT]);
    assert Wrap(p) == before + p.subject + ([AT] + p.tail);
    Middle(before, p.subject, [AT] + p.tail);
    assert Wrap(p) == (before + p.subject + [AT]) + p.tail;
    Suffix(before + p.subject + [AT], p.tail);
  }

  lemma WrapSlices(p: Parts)
    ensures var raw, first, second := Wrap(p), |p.route|, |p.route| + 1 + |p.profile|;
      var after := second + 1 + |p.subject| + 1;
      after <= |raw| && p == Parts(raw[..first], raw[first + 1..second], raw[second + 1..after - 1], raw[after..])
  {
    RouteAndProfileSlices(p);
    SubjectAndTailSlices(p);
  }

  /** Positions that are the first, second and last '@' decide the cut. */
  lemma CutAt(raw: Bytes, first: nat, second: nat, after: nat)
    requires first < second < after - 1 && after <= |raw|
    requires raw[first] == AT && raw[second] == AT && raw[after - 1] == AT
    requires forall k | 0 <= k < second && k != first :: raw[k] != AT
    requires forall k | after <= k < |raw| :: raw[k] != AT
    ensures Cut(raw) == Some(Parts(raw[..first], raw[first + 1..second], raw[second + 1..after - 1], raw[after..]))
  {
    var i := Index(raw, AT);
    assert i == first;
    var rest := raw[first + 1..];
    assert rest[second - first - 1] == AT;
    var j := Index(rest, AT);
    assert j == second - first - 1;
    assert AfterLast(raw, AT) == after;
  }

  /** The three '@' positions of an encoding. */
  lemma CutWrap(p: Parts)
    requires AT !in p.route && AT !in p.profile && AT !in p.tail
    ensures Cut(Wrap(p)) == Some(p)
  {
    var raw, first, second := Wrap(p), |p.route|, |p.route| + 1 + |p.profile|;
    var after := second + 1 + |p.subject| + 1;
    WrapSlices(p);
    WrapMarks(p);
    CutAt(raw, first, second, after);
  }

  lemma WrapMarks(p: Parts)
    requires AT !in p.route && AT !in p.profile && AT !in p.tail
    ensures var raw, first, second := Wrap(p), |p.route|, |p.route| + 1 + |p.profile|;
      var after := second + 1 + |p.subject| + 1;
      && after <= |raw| && raw[first] == AT && raw[second] == AT && raw[after - 1] == AT
      && (forall k | 0 <= k < second && k != first :: raw[k] != AT)
      && (forall k | after <= k < |raw| :: raw[k] != AT)
  {
    var raw, first, second := Wrap(p), |p.route|, |p.route| + 1 + |p.profile|;
    var after := second + 1 + |p.subject| + 1;
    forall k | 0 <= k < second && k != first ensures raw[k] != AT {
      assert k < first ==> raw[k] == p.route[k];
      assert k > first ==> raw[k] == p.profile[k - first - 1];
    }
    assert |raw| == after + |p.tail|;
    forall k | after <= k < |raw| ensures raw[k] != AT {
      assert raw[k] == p.tail[k - after];
    }
  }

  lemma {:induction false} SplitCharacters(s: Bytes, c: byte)
    requires c !in s
    ensures forall e | e in Split(s) :: c !in e && COMMA !in e
    decreases |s|
  {
    var i := Index(s, COMMA);
    if i < |s| { SplitCharacters(s[i + 1..], c); }
  }

  lemma {:induction false} DecodedIds(es: seq<Bytes>, acc: map<Bytes, Bytes>, s: Session)
    requires forall e | e in es :: AT !in e && COMMA !in e
    requires forall id | id in acc :: GoodId(id)
    ensures var d := DecodeEntries(es, acc, s);
      d.Ok? ==> d.session == s.(backends := d.session.backends) && forall id | id in d.session.backends :: GoodId(id)
    decreases |es|
  {
    if es != [] {
      var i := Index(es[0], COLON);
      var id := es[0][..i];
      if i < |es[0]| && id != [] {
        assert es[0] in es;
        match Base64.Decode(es[0][i + 1..])
        case None =>
        case Some(v) => DecodedIds(es[1..], acc[id := v], s);
      }
    }
  }

  lemma CutCharacters(raw: Bytes)
    ensures var c := Cut(raw); c.Some? ==> AT !in c.value.route && AT !in c.value.profile && AT !in c.value.tail
  {
    var first := Index(raw, AT);
    if first < |raw| {
      var n := Index(raw[first + 1..], AT);
      assert raw[first + 1..first + 1 + n] == raw[first + 1..][..n];
    }
  }

  /** Whatever decodes is well formed, for every input string. */
  lemma DecodedWellFormed(raw: Bytes)
    ensures Decode(raw).Ok? ==> WellFormed(Decode(raw).session)
  {
    CutCharacters(raw);
    match Cut(raw)
    case None =>
    case Some(p) =>
      SplitCharacters(p.tail, AT);
      DecodedIds(Split(p.tail), map[], Session(p.route, p.profile, p.subject, map[]));
  }

  /**
   A session survives encoding and decoding exactly when it is well formed, for every subject and every
   backend value, '@' included.
   */
  lemma RoundTripIff(s: Session)
    ensures Decode(Encode(s)) == Ok(s) <==> WellFormed(s)
  {
    DecodedWellFormed(Encode(s));
    if WellFormed(s) {
      var ks := SortedKeys(s.backends.Keys);
      assert forall k | k in ks :: k in ToSet(ks);
      ListedRoundTrip(s, ks);
    }
  }

  /** Different well-formed sessions have different encodings. */
  lemma EncodeInjective(s: Session, t: Session)
    requires WellFormed(s) && WellFormed(t) && Encode(s) == Encode(t)
    ensures s == t
  {
    RoundTripIff(s);
    RoundTripIff(t);
  }
}
