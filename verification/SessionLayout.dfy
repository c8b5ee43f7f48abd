/**
 The text of a composite session id and how it is read, stated with its literal characters: what encodeCompositeSession
 writes character by character, which texts decodeCompositeSession refuses, and how entries of one id combine.
 */
module SessionLayout {
  import opened Common
  import opened Sessions
  import opened SessionCodec
  import Base64

  // ---------------------------------------------------------------------------------------------
  // Order of the keys

  /** a and b agree up to n, and there a ends or has the smaller byte. */
  predicate SmallerAt(a: Bytes, b: Bytes, n: nat) {
    && n <= |a| && n < |b| && a[..n] == b[..n]
    && (n == |a| || a[n] < b[n])
  }

  /** Keys are compared at their first differing byte, and a proper prefix comes first. */
  lemma {:induction false} LessAtFirstDifference(a: Bytes, b: Bytes)
    ensures Less(a, b) <==> exists n :: SmallerAt(a, b, n)
  {
    if a == [] || b == [] {
      if a == [] && b != [] { assert SmallerAt(a, b, 0); }
    } else if a[0] != b[0] {
      if a[0] < b[0] { assert SmallerAt(a, b, 0); }
      if n: nat :| SmallerAt(a, b, n) {
        assert n == 0;
      }
    } else {
      LessAtFirstDifference(a[1..], b[1..]);
      if n: nat :| SmallerAt(a[1..], b[1..], n) {
        assert a[..n + 1] == [a[0]] + a[1..][..n] && b[..n + 1] == [b[0]] + b[1..][..n];
        assert SmallerAt(a, b, n + 1);
      }
      if n: nat :| SmallerAt(a, b, n) {
        SmallerLater(a, b, n);
      }
    }
  }

  lemma SmallerLater(a: Bytes, b: Bytes, n: nat)
    requires a != [] && b != [] && a[0] == b[0] && SmallerAt(a, b, n)
    ensures n > 0 && SmallerAt(a[1..], b[1..], n - 1)
  {
    assert a[1..][..n - 1] == a[..n][1..] && b[1..][..n - 1] == b[..n][1..];
  }

  // ---------------------------------------------------------------------------------------------
  // The text

  /** The backends, separated by commas, each as id, colon and base64 value. */
  function Listed(ks: seq<Bytes>, backends: map<Bytes, Bytes>): Bytes
    requires forall k | k in ks :: k in backends
  {
    if ks == [] then []
    else
      var before, k := ks[..|ks| - 1], ks[|ks| - 1];
      Listed(before, backends) + (if before == [] then [] else [',' as int]) + k + [':' as int]
        + Base64.Encode(backends[k])
  }

  function Layout(s: Session, ks: seq<Bytes>): Bytes
    requires forall k | k in ks :: k in s.backends
  {
    s.route + ['@' as int] + s.profile + ['@' as int] + s.subject + ['@' as int] + Listed(ks, s.backends)
  }

  lemma {:induction false} ListedIsJoined(ks: seq<Bytes>, backends: map<Bytes, Bytes>)
    requires forall k | k in ks :: k in backends
    ensures Listed(ks, backends) == JoinComma(Entries(ks, backends))
    decreases |ks|
  {
    if ks != [] {
      var before, k := ks[..|ks| - 1], ks[|ks| - 1];
      ListedIsJoined(before, backends);
      assert Entries(ks, backends) == Entries(before, backends) + [EntryOf(k, backends[k])];
      JoinOneMore(Entries(before, backends), EntryOf(k, backends[k]));
      EntryText(Listed(before, backends), before != [], k, Base64.Encode(backends[k]));
    }
  }

  lemma EntryText(head: Bytes, separate: bool, k: Bytes, value: Bytes)
    ensures head + (if separate then [',' as int] else []) + k + [':' as int] + value
         == (if separate then head + [COMMA] else head) + (k + [COLON] + value)
  {
    var h := if separate then head + [COMMA] else head;
    assert head + (if separate then [',' as int] else []) == h;
    assert h + k + [COLON] + value == h + (k + [COLON] + value);
  }

  /** The encoding is the layout over the keys in ascending order of bytes, each once. */
  lemma EncodeLayout(s: Session) returns (ks: seq<Bytes>)
    ensures Sorted(ks) && ToSet(ks) == s.backends.Keys && forall k | k in ks :: k in s.backends
    ensures Encode(s) == Layout(s, ks)
  {
    ks := SortedKeys(s.backends.Keys);
    assert forall k | k in ks :: k in ToSet(ks);
    ListedIsJoined(ks, s.backends);
    WrapFlat(Parts(s.route, s.profile, s.subject, Listed(ks, s.backends)));
  }

  /** For example, route r, profile p, subject s and backend a with value hi: r@p@s@a:aGk= */
  lemma EncodeExample()
    ensures Encode(Session(['r' as int], ['p' as int], ['s' as int], map[['a' as int] := ['h' as int, 'i' as int]]))
         == ['r' as int, '@' as int, 'p' as int, '@' as int, 's' as int, '@' as int, 'a' as int, ':' as int,
             'a' as int, 'G' as int, 'k' as int, '=' as int]
  {
    var k, v: Bytes := ['a' as int], ['h' as int, 'i' as int];
    var s := Session(['r' as int], ['p' as int], ['s' as int], map[k := v]);
    var ks := EncodeLayout(s);
    OneKey(k, v, ks);
    ValueHi();
    ExampleText(Base64.Encode(v));
  }

  lemma OneKey(k: Bytes, v: Bytes, ks: seq<Bytes>)
    requires Sorted(ks) && ToSet(ks) == {k}
    ensures ks == [k] && Listed(ks, map[k := v]) == k + [':' as int] + Base64.Encode(v)
  {
    assert Sorted([k]) && ToSet([k]) == {k};
    SortedUnique([k], ks);
    assert [k][..0] == [];
    assert Listed([k][..0], map[k := v]) == [];
    var value := Base64.Encode(v);
    assert [] + [] + k + [':' as int] + value == k + [':' as int] + value;
  }

  lemma ExampleText(value: Bytes)
    requires value == ['a' as int, 'G' as int, 'k' as int, '=' as int]
    ensures var r, p, s, k: Bytes := ['r' as int], ['p' as int], ['s' as int], ['a' as int];
      r + ['@' as int] + p + ['@' as int] + s + ['@' as int] + (k + [':' as int] + value)
        == ['r' as int, '@' as int, 'p' as int, '@' as int, 's' as int, '@' as int, 'a' as int, ':' as int,
            'a' as int, 'G' as int, 'k' as int, '=' as int]
  {
  }

  lemma ValueHi()
    ensures Base64.Encode(['h' as int, 'i' as int]) == ['a' as int, 'G' as int, 'k' as int, '=' as int]
  {
    assert Base64.Bits1(104) == 26 && Base64.Bits2(104, 105) == 6 && Base64.Bits3(105, 0) == 36;
  }

  // ---------------------------------------------------------------------------------------------
  // Reading

  /** Three separators are there. */
  ghost predicate ThreeMarks(raw: Bytes) {
    exists i, j, k | 0 <= i < j < k < |raw| :: raw[i] == '@' as int && raw[j] == '@' as int && raw[k] == '@' as int
  }

  lemma CutIff(raw: Bytes)
    ensures Cut(raw).Some? <==> ThreeMarks(raw)
  {
    var first := Index(raw, AT);
    if first < |raw| {
      var rest := raw[first + 1..];
      var n := Index(rest, AT);
      assert forall k | first < k < |raw| :: raw[k] == rest[k - first - 1];
    }
  }

  lemma {:induction false} EntriesNeverInvalid(es: seq<Bytes>, acc: map<Bytes, Bytes>, s: Session)
    ensures DecodeEntries(es, acc, s) != InvalidSession
    decreases |es|
  {
    if es != [] {
      var i := Index(es[0], COLON);
      if i < |es[0]| && i > 0 && Base64.Decode(es[0][i + 1..]).Some? {
        EntriesNeverInvalid(es[1..], acc[es[0][..i] := Base64.Decode(es[0][i + 1..]).value], s);
      }
    }
  }

  /** A text is refused as a session id exactly when it has fewer than three separators. */
  lemma InvalidSessionIff(raw: Bytes)
    ensures Decode(raw) == InvalidSession <==> !ThreeMarks(raw)
  {
    CutIff(raw);
    if Cut(raw).Some? {
      var p := Cut(raw).value;
      EntriesNeverInvalid(Split(p.tail), map[], Session(p.route, p.profile, p.subject, map[]));
    }
  }

  /** The session after one more entry: a later entry of the same id replaces an earlier one. */
  function ReadEntry(t: Session, e: Bytes): Decoded {
    var colon := Index(e, ':' as int);
    if colon == 0 || colon == |e| then InvalidEntry
    else
      match Base64.Decode(e[colon + 1..])
      case None => BadBase64(e[..colon])
      case Some(v) => Ok(t.(backends := t.backends[e[..colon] := v]))
  }

  /** Entries are read from left to right: the first bad one decides the error, the last of an id its value. */
  lemma {:induction false} EntriesInOrder(es: seq<Bytes>, e: Bytes, acc: map<Bytes, Bytes>, s: Session)
    ensures var d := DecodeEntries(es, acc, s);
      DecodeEntries(es + [e], acc, s) == if d.Ok? then ReadEntry(d.session, e) else d
    decreases |es|
  {
    if es == [] {
      assert es + [e] == [e];
      assert [e][1..] == [];
    } else {
      assert (es + [e])[0] == es[0] && (es + [e])[1..] == es[1..] + [e];
      var i := Index(es[0], COLON);
      if i < |es[0]| && i > 0 && Base64.Decode(es[0][i + 1..]).Some? {
        EntriesInOrder(es[1..], e, acc[es[0][..i] := Base64.Decode(es[0][i + 1..]).value], s);
      }
    }
  }
}
