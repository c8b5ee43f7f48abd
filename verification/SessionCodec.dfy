/** The loops of examples/mcp-profile-router/session.go, proved against the printer and parser of `Sessions`. */
module SessionCodec {
  import opened Common
  import opened Sessions
  import Base64

  lemma LeqTransitive(a: Bytes, b: Bytes, c: Bytes)
    requires Leq(a, b) && Leq(b, c)
    ensures Leq(a, c)
  {
    if a != b && b != c { LessTransitive(a, b, c); }
  }

  ghost predicate Ascending(s: seq<Bytes>) {
    forall p, q | 0 <= p < q < |s| :: Leq(s[p], s[q])
  }

  ghost predicate Distinct(s: seq<Bytes>) {
    forall p, q | 0 <= p < q < |s| :: s[p] != s[q]
  }

  /**
   The first i + 1 strings are in order except for the one travelling down, now at j, which is below all it passed.
   */
  ghost predicate Sinking(s: seq<Bytes>, i: nat, j: nat) {
    && j <= i < |s|
    && (forall p, q | 0 <= p < q <= i && p != j && q != j :: Leq(s[p], s[q]))
    && (forall q | j < q <= i :: Leq(s[j], s[q]))
  }

  function Swapped(s: seq<Bytes>, j: nat): seq<Bytes>
    requires 0 < j < |s|
  {
    s[j := s[j - 1]][j - 1 := s[j]]
  }

  lemma SwapKeepsSinking(s: seq<Bytes>, i: nat, j: nat)
    requires Sinking(s, i, j) && 0 < j && Less(s[j], s[j - 1])
    ensures Sinking(Swapped(s, j), i, j - 1)
  {
  }

  lemma SwapPermutes(s: seq<Bytes>, j: nat)
    requires 0 < j < |s|
    ensures multiset(Swapped(s, j)) == multiset(s)
  {
    var before, after := s[..j - 1], s[j + 1..];
    assert s == before + [s[j - 1]] + [s[j]] + after;
    assert Swapped(s, j) == before + [s[j]] + [s[j - 1]] + after;
  }

  lemma StartsSinking(s: seq<Bytes>, i: nat)
    requires i < |s| && Ascending(s[..i])
    ensures Sinking(s, i, i)
  {
    assert forall p | 0 <= p < i :: s[..i][p] == s[p];
  }

  lemma SunkIsAscending(s: seq<Bytes>, i: nat, j: nat)
    requires Sinking(s, i, j) && (j == 0 || !Less(s[j], s[j - 1]))
    ensures Ascending(s[..i + 1])
  {
    if j > 0 {
      LessTotal(s[j], s[j - 1]);
      forall p | 0 <= p < j ensures Leq(s[p], s[j]) {
        if p < j - 1 { LeqTransitive(s[p], s[j - 1], s[j]); }
      }
    }
  }

  /** sortStrings: insertion sort in place. */
  method SortStrings(values: array<Bytes>)
    modifies values
    ensures Ascending(values[..])
    ensures multiset(values[..]) == multiset(old(values[..]))
  {
    var i := 1;
    while i < values.Length
      invariant 1 <= i && (values.Length == 0 || i <= values.Length)
      invariant values.Length > 0 ==> Ascending(values[..i])
      invariant multiset(values[..]) == multiset(old(values[..]))
    {
      var j := i;
      assert values[..][..i] == values[..i];
      StartsSinking(values[..], i);
      while j > 0 && Less(values[j], values[j - 1])
        invariant Sinking(values[..], i, j)
        invariant multiset(values[..]) == multiset(old(values[..]))
      {
        ghost var s := values[..];
        SwapKeepsSinking(s, i, j);
        SwapPermutes(s, j);
        values[j], values[j - 1] := values[j - 1], values[j];
        assert values[..] == Swapped(s, j);
        j := j - 1;
      }
      SunkIsAscending(values[..], i, j);
      assert values[..][..i + 1] == values[..i + 1];
      i := i + 1;
    }
    assert values.Length > 0 ==> values[..values.Length] == values[..];
  }

  lemma {:induction false} AtMostOnce(a: seq<Bytes>, k: Bytes)
    requires Distinct(a)
    ensures multiset(a)[k] <= 1
    decreases |a|
  {
    if a != [] {
      var rest := a[1..];
      assert a == [a[0]] + rest;
      AtMostOnce(rest, k);
      assert a[0] == k ==> k !in rest;
    }
  }

  /** Rearranging distinct strings in ascending order gives their one sorted listing. */
  lemma AscendingDistinctIsSorted(a: seq<Bytes>, b: seq<Bytes>)
    requires multiset(a) == multiset(b) && Distinct(a) && Ascending(b)
    ensures Sorted(b) && ToSet(a) == ToSet(b)
  {
    forall p, q | 0 <= p < q < |b| ensures Less(b[p], b[q]) {
      assert b == b[..p] + [b[p]] + b[p + 1..q] + [b[q]] + b[q + 1..];
      AtMostOnce(a, b[p]);
    }
    forall k ensures k in a <==> k in b {
      assert k in a <==> k in multiset(a);
      assert k in b <==> k in multiset(b);
    }
  }

  /** The keys of a map in whatever order it is iterated. */
  method ListKeys(m: map<Bytes, Bytes>) returns (keys: seq<Bytes>)
    ensures Distinct(keys) && ToSet(keys) == m.Keys
  {
    keys := [];
    var rest := m.Keys;
    while rest != {}
      invariant rest + ToSet(keys) == m.Keys && rest !! ToSet(keys) && Distinct(keys)
      decreases |rest|
    {
      var k :| k in rest;
      OneMoreKey(keys, k);
      keys := keys + [k];
      rest := rest - {k};
    }
  }

  lemma OneMoreKey(keys: seq<Bytes>, k: Bytes)
    requires Distinct(keys) && k !in ToSet(keys)
    ensures Distinct(keys + [k]) && ToSet(keys + [k]) == ToSet(keys) + {k}
  {
    assert forall x | x in keys :: x in ToSet(keys);
  }

  /** sortedStringKeys: whatever order the map is iterated in, the result is the one sorted listing. */
  method SortedStringKeys(m: map<Bytes, Bytes>) returns (keys: seq<Bytes>)
    ensures keys == SortedKeys(m.Keys)
  {
    var listed := ListKeys(m);
    var values := new Bytes[|listed|](i requires 0 <= i < |listed| => listed[i]);
    assert values[..] == listed;
    SortStrings(values);
    keys := values[..];
    AscendingDistinctIsSorted(listed, keys);
    SortedUnique(keys, SortedKeys(m.Keys));
  }

  lemma {:induction false} JoinOneMore(es: seq<Bytes>, e: Bytes)
    ensures JoinComma(es + [e]) == if es == [] then e else JoinComma(es) + [COMMA] + e
    decreases |es|
  {
    if |es| > 0 {
      assert (es + [e])[1..] == es[1..] + [e];
      JoinOneMore(es[1..], e);
      if |es| > 1 {
        assert es[0] + [COMMA] + (JoinComma(es[1..]) + [COMMA] + e)
          == (es[0] + [COMMA] + JoinComma(es[1..])) + [COMMA] + e;
      }
    }
  }

  lemma AppendEntry(head: Bytes, es: seq<Bytes>, e: Bytes)
    ensures head + JoinComma(es + [e])
      == (if es == [] then head + JoinComma(es) else head + JoinComma(es) + [COMMA]) + e
  {
    JoinOneMore(es, e);
    assert head + (JoinComma(es) + [COMMA] + e) == head + JoinComma(es) + [COMMA] + e;
  }

  /** The writes of one iteration of encodeCompositeSession's loop. */
  method WriteEntry(b0: Bytes, separate: bool, id: Bytes, value: Bytes) returns (b: Bytes)
    ensures b == (if separate then b0 + [COMMA] else b0) + EntryOf(id, value)
  {
    b := b0;
    if separate { b := b + [COMMA]; }
    ghost var start := b;
    b := b + id;
    b := b + [COLON];
    b := b + Base64.Encode(value);
    assert b == start + (id + [COLON] + Base64.Encode(value));
  }

  /** The loop of encodeCompositeSession. */
  method WriteEntries(head: Bytes, ids: seq<Bytes>, backends: map<Bytes, Bytes>) returns (b: Bytes)
    requires forall k | k in ids :: k in backends
    ensures b == head + JoinComma(Entries(ids, backends))
  {
    ghost var es := Entries(ids, backends);
    b := head;
    var i := 0;
    while i < |ids|
      invariant i <= |ids|
      invariant b == head + JoinComma(es[..i])
    {
      assert es[..i + 1] == es[..i] + [es[i]];
      b := WriteEntry(b, i > 0, ids[i], backends[ids[i]]);
      AppendEntry(head, es[..i], es[i]);
      i := i + 1;
    }
    assert es[..|ids|] == es;
  }

  /** encodeCompositeSession: the bytes written do not depend on the map's iteration order. */
  method EncodeCompositeSession(s: Session) returns (b: Bytes)
    ensures b == Encode(s)
  {
    b := s.route + [AT] + s.profile + [AT] + s.subject + [AT];
    var ids := SortedStringKeys(s.backends);
    assert forall k | k in ids :: k in ToSet(ids);
    b := WriteEntries(b, ids, s.backends);
    WrapFlat(Parts(s.route, s.profile, s.subject, JoinComma(Entries(ids, s.backends))));
  }

  lemma WrapFlat(p: Parts)
    ensures Wrap(p) == p.route + [AT] + p.profile + [AT] + p.subject + [AT] + p.tail
  {
    var flat := p.route + [AT] + p.profile + [AT] + p.subject + [AT] + p.tail;
    assert |flat| == |Wrap(p)|;
    assert forall i | 0 <= i < |flat| :: flat[i] == Wrap(p)[i];
  }

  /** decodeCompositeSession: the three cuts. */
  method CutSession(raw: Bytes) returns (c: Option<Parts>)
    ensures c == Cut(raw)
  {
    var first := Index(raw, AT);
    if first == |raw| { return None; }
    var second := first + 1 + Index(raw[first + 1..], AT);
    if second == |raw| { return None; }
    var after := AfterLast(raw, AT);
    if after <= second + 1 { return None; }
    return Some(Parts(raw[..first], raw[first + 1..second], raw[second + 1..after - 1], raw[after..]));
  }

  /** decodeCompositeSession. */
  method DecodeCompositeSession(raw: Bytes) returns (r: Decoded)
    ensures r == Decode(raw)
  {
    var cut := CutSession(raw);
    match cut
    case None => r := InvalidSession;
    case Some(p) => r := FillBackends(p);
  }

  /** decodeCompositeSession: the loop that fills the backend map. */
  method FillBackends(p: Parts) returns (r: Decoded)
    ensures r == DecodeParts(p)
  {
    var bare := Session(p.route, p.profile, p.subject, map[]);
    if p.tail == [] { return Ok(bare); }
    var entries := Split(p.tail);
    var backends: map<Bytes, Bytes> := map[];
    var i := 0;
    while i < |entries|
      invariant i <= |entries|
      invariant DecodeEntries(entries, map[], bare) == DecodeEntries(entries[i..], backends, bare)
    {
      var entry := entries[i];
      var colon := Index(entry, COLON);
      if colon == |entry| || colon == 0 { return InvalidEntry; }
      assert entries[i..][1..] == entries[i + 1..];
      match Base64.Decode(entry[colon + 1..])
      case None => return BadBase64(entry[..colon]);
      case Some(v) => backends := backends[entry[..colon] := v];
      i := i + 1;
    }
    return Ok(bare.(backends := backends));
  }
}
