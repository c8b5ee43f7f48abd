/** Standard base64 with padding, section 4 of RFC 4648, as Go's StdEncoding writes and reads it. */
module Base64 {
  import opened Common

  const PAD: byte := 61

  predicate Newline(c: byte) {
    c == 10 || c == 13
  }

  /** The character of a 6-bit value. */
  function Char(i: nat): byte
    requires i < 64
  {
    if i < 26 then 65 + i else if i < 52 then 97 + (i - 26) else if i < 62 then 48 + (i - 52)
    else if i == 62 then 43 else 47
  }

  /** The 6-bit value of a character, or None outside the alphabet. */
  function Value(c: byte): (r: Option<nat>)
    ensures r.Some? ==> r.value < 64
  {
    if 65 <= c <= 90 then Some(c - 65) else if 97 <= c <= 122 then Some(c - 97 + 26)
    else if 48 <= c <= 57 then Some(c - 48 + 52) else if c == 43 then Some(62) else if c == 47 then Some(63) else None
  }

  /** Every 6-bit value is written as a character that reads back, and never as padding, newline, '@', ',' or ':'. */
  lemma CharReadsBack(i: nat)
    requires i < 64
    ensures Value(Char(i)) == Some(i)
    ensures var c := Char(i); c != PAD && !Newline(c) && c != 64 && c != 44 && c != 58
  {
  }

  /** The four 6-bit parts of three bytes. */
  function Bits1(a: byte): (r: nat)
    ensures r < 64
  {
    a / 4
  }

  function Bits2(a: byte, b: byte): (r: nat)
    ensures r < 64
  {
    a % 4 * 16 + b / 16
  }

  function Bits3(b: byte, c: byte): (r: nat)
    ensures r < 64
  {
    b % 16 * 4 + c / 64
  }

  function Bits4(c: byte): (r: nat)
    ensures r < 64
  {
    c % 64
  }

  function Encode(s: Bytes): Bytes {
    if s == [] then []
    else if |s| == 1 then [Char(Bits1(s[0])), Char(Bits2(s[0], 0)), PAD, PAD]
    else if |s| == 2 then [Char(Bits1(s[0])), Char(Bits2(s[0], s[1])), Char(Bits3(s[1], 0)), PAD]
    else [Char(Bits1(s[0])), Char(Bits2(s[0], s[1])), Char(Bits3(s[1], s[2])), Char(Bits4(s[2]))] + Encode(s[3..])
  }

  function Join(i: nat, j: nat): byte
    requires i < 64 && j < 64
  {
    i * 4 + j / 16
  }

  function Middle(j: nat, k: nat): byte
    requires j < 64 && k < 64
  {
    j % 16 * 16 + k / 4
  }

  function Low(k: nat, l: nat): byte
    requires k < 64 && l < 64
  {
    k % 4 * 64 + l
  }

  /** Groups of four; only the last may be padded, and its unused bits are ignored. */
  function DecodeGroups(s: Bytes): Option<Bytes> {
    if s == [] then Some([])
    else if |s| < 4 then None
    else
      var i, j, k, l := Value(s[0]), Value(s[1]), Value(s[2]), Value(s[3]);
      if i.None? || j.None? then None
      else if |s| == 4 && s[2] == PAD && s[3] == PAD then Some([Join(i.value, j.value)])
      else if k.None? then None
      else if |s| == 4 && s[3] == PAD then Some([Join(i.value, j.value), Middle(j.value, k.value)])
      else if l.None? then None
      else
        match DecodeGroups(s[4..])
        case None => None
        case Some(rest) => Some([Join(i.value, j.value), Middle(j.value, k.value), Low(k.value, l.value)] + rest)
  }

  function DropNewlines(s: Bytes): Bytes {
    if s == [] then [] else (if Newline(s[0]) then [] else [s[0]]) + DropNewlines(s[1..])
  }

  /** StdEncoding.DecodeString: newlines are skipped anywhere. */
  function Decode(s: Bytes): Option<Bytes> {
    DecodeGroups(DropNewlines(s))
  }

  lemma {:induction false} EncodedCharacters(s: Bytes)
    ensures forall c | c in Encode(s) :: !Newline(c) && c != 64 && c != 44 && c != 58
  {
    if |s| >= 1 { CharReadsBack(Bits1(s[0])); }
    if |s| == 1 { CharReadsBack(Bits2(s[0], 0)); }
    if |s| >= 2 { CharReadsBack(Bits2(s[0], s[1])); }
    if |s| == 2 { CharReadsBack(Bits3(s[1], 0)); }
    if |s| >= 3 {
      CharReadsBack(Bits3(s[1], s[2]));
      CharReadsBack(Bits4(s[2]));
      EncodedCharacters(s[3..]);
    }
  }

  lemma {:induction false} NothingDropped(s: Bytes)
    requires forall c | c in s :: !Newline(c)
    ensures DropNewlines(s) == s
  {
    if s != [] { NothingDropped(s[1..]); }
  }

  lemma ThreeBytes(a: byte, b: byte, c: byte)
    ensures Join(Bits1(a), Bits2(a, b)) == a && Middle(Bits2(a, b), Bits3(b, c)) == b && Low(Bits3(b, c), Bits4(c)) == c
  {
  }

  lemma FullGroup(i: nat, j: nat, k: nat, l: nat, rest: Bytes)
    requires i < 64 && j < 64 && k < 64 && l < 64 && DecodeGroups(rest).Some?
    ensures DecodeGroups([Char(i), Char(j), Char(k), Char(l)] + rest)
         == Some([Join(i, j), Middle(j, k), Low(k, l)] + DecodeGroups(rest).value)
  {
    CharReadsBack(i);
    CharReadsBack(j);
    CharReadsBack(k);
    CharReadsBack(l);
    var e := [Char(i), Char(j), Char(k), Char(l)] + rest;
    assert e[4..] == rest;
  }

  lemma PaddedTwo(i: nat, j: nat, k: nat)
    requires i < 64 && j < 64 && k < 64
    ensures DecodeGroups([Char(i), Char(j), Char(k), PAD]) == Some([Join(i, j), Middle(j, k)])
  {
    CharReadsBack(i);
    CharReadsBack(j);
    CharReadsBack(k);
  }

  lemma PaddedOne(i: nat, j: nat)
    requires i < 64 && j < 64
    ensures DecodeGroups([Char(i), Char(j), PAD, PAD]) == Some([Join(i, j)])
  {
    CharReadsBack(i);
    CharReadsBack(j);
  }

  lemma FirstByte(a: byte, b: byte)
    ensures Join(Bits1(a), Bits2(a, b)) == a
  {
    ThreeBytes(a, b, b);
  }

  lemma LastOne(a: byte)
    ensures DecodeGroups(Encode([a])) == Some([a])
  {
    var i, j := Bits1(a), Bits2(a, 0);
    FirstByte(a, 0);
    PaddedOne(i, j);
  }

  lemma LastTwo(a: byte, b: byte)
    ensures DecodeGroups(Encode([a, b])) == Some([a, b])
  {
    ThreeBytes(a, b, 0);
    PaddedTwo(Bits1(a), Bits2(a, b), Bits3(b, 0));
  }

  lemma FirstThree(a: byte, b: byte, c: byte, rest: Bytes)
    requires DecodeGroups(Encode(rest)) == Some(rest)
    ensures DecodeGroups(Encode([a, b, c] + rest)) == Some([a, b, c] + rest)
  {
    var s := [a, b, c] + rest;
    assert s[3..] == rest;
    ThreeBytes(a, b, c);
    FullGroup(Bits1(a), Bits2(a, b), Bits3(b, c), Bits4(c), Encode(rest));
  }

  lemma {:induction false} GroupsRoundTrip(s: Bytes)
    ensures DecodeGroups(Encode(s)) == Some(s)
  {
    if |s| == 1 {
      LastOne(s[0]);
      assert s == [s[0]];
    } else if |s| == 2 {
      LastTwo(s[0], s[1]);
      assert s == [s[0], s[1]];
    } else if |s| >= 3 {
      GroupsRoundTrip(s[3..]);
      FirstThree(s[0], s[1], s[2], s[3..]);
      assert s == [s[0], s[1], s[2]] + s[3..];
    }
  }

  /** Every byte string decodes from its encoding. */
  lemma RoundTrip(s: Bytes)
    ensures Decode(Encode(s)) == Some(s)
  {
    EncodedCharacters(s);
    NothingDropped(Encode(s));
    GroupsRoundTrip(s);
  }

  // ---------------------------------------------------------------------------------------------
  // Against section 4 of RFC 4648

  /** Table 1: the characters of the values 0 to 63, in order. */
  const ALPHABET: string := "ABCDEFGHIJKLMNOPQRSTUVWXYZ" + "abcdefghijklmnopqrstuvwxyz" + "0123456789" + "+/"

  lemma UpperCase(a: string)
    requires a == "ABCDEFGHIJKLMNOPQRSTUVWXYZ"
    ensures |a| == 26 && forall i | 0 <= i < 26 :: a[i] as int == 65 + i
  {
  }

  lemma LowerCase(a: string)
    requires a == "abcdefghijklmnopqrstuvwxyz"
    ensures |a| == 26 && forall i | 0 <= i < 26 :: a[i] as int == 97 + i
  {
  }

  lemma Digits(a: string)
    requires a == "0123456789"
    ensures |a| == 10 && forall i | 0 <= i < 10 :: a[i] as int == 48 + i
  {
  }

  lemma AlphabetAt(u: string, l: string, d: string, i: nat)
    requires i < 64 && |u| == 26 && |l| == 26 && |d| == 10
    ensures (u + l + d + "+/")[i] ==
      if i < 26 then u[i] else if i < 52 then l[i - 26] else if i < 62 then d[i - 52] else if i == 62 then '+' else '/'
  {
  }

  /** Char writes the i-th character of the table. */
  lemma CharIsAlphabet(i: nat)
    requires i < 64
    ensures |ALPHABET| == 64 && Char(i) == ALPHABET[i] as int
  {
    var u, l, d := "ABCDEFGHIJKLMNOPQRSTUVWXYZ", "abcdefghijklmnopqrstuvwxyz", "0123456789";
    UpperCase(u);
    LowerCase(l);
    Digits(d);
    AlphabetAt(u, l, d, i);
  }

  /** The characters with a value are exactly those of the table, and the value is the position. */
  lemma ValueIsPosition(c: byte, i: nat)
    ensures |ALPHABET| == 64
    ensures Value(c) == Some(i) <==> i < 64 && ALPHABET[i] as int == c
  {
    if i < 64 {
      CharReadsBack(i);
      CharIsAlphabet(i);
    }
    if Value(c) == Some(i) { assert Char(i) == c; }
  }

  /** The value of a character; padding counts as 0. */
  function Digit(c: byte): (r: nat)
    ensures r < 64
  {
    if Value(c).Some? then Value(c).value else 0
  }

  function ByteAt(s: Bytes, i: nat): nat {
    if i < |s| then s[i] else 0
  }

  /** The 24 bits of the g-th group of three bytes, filled up with zeros. */
  function InputGroup(s: Bytes, g: nat): nat {
    ByteAt(s, 3 * g) * 0x1_0000 + ByteAt(s, 3 * g + 1) * 0x100 + ByteAt(s, 3 * g + 2)
  }

  /** The 24 bits of the g-th group of four characters. */
  function OutputGroup(e: Bytes, g: nat): nat
    requires 4 * g + 4 <= |e|
  {
    ((Digit(e[4 * g]) * 64 + Digit(e[4 * g + 1])) * 64 + Digit(e[4 * g + 2])) * 64 + Digit(e[4 * g + 3])
  }

  /** Characters of padding at the end of the encoding of n bytes. */
  function PadCount(n: nat): nat {
    (3 - n % 3) % 3
  }

  lemma GroupBits(a: byte, b: byte, c: byte)
    ensures ((Bits1(a) * 64 + Bits2(a, b)) * 64 + Bits3(b, c)) * 64 + Bits4(c) == a * 0x1_0000 + b * 0x100 + c
  {
    assert a == a / 4 * 4 + a % 4;
    assert b == b / 16 * 16 + b % 16;
    assert c == c / 64 * 64 + c % 64;
  }

  /** e is the encoding of s: its length, its padding and every 24-bit group are those of the standard. */
  ghost predicate MeetsStandard(s: Bytes, e: Bytes) {
    && |e| == 4 * ((|s| + 2) / 3)
    && (forall i | 0 <= i < |e| :: e[i] == '=' as int <==> i >= |e| - PadCount(|s|))
    && (forall i | 0 <= i < |e| - PadCount(|s|) :: Value(e[i]).Some?)
    && (forall g | 0 <= g < (|s| + 2) / 3 :: OutputGroup(e, g) == InputGroup(s, g))
  }

  lemma GroupShift(head: Bytes, tail: Bytes, g: nat)
    requires |head| == 4 && 4 * g + 4 <= |tail|
    ensures OutputGroup(head + tail, g + 1) == OutputGroup(tail, g)
  {
    var e := head + tail;
    assert e[4 * (g + 1)] == tail[4 * g] && e[4 * (g + 1) + 1] == tail[4 * g + 1];
    assert e[4 * (g + 1) + 2] == tail[4 * g + 2] && e[4 * (g + 1) + 3] == tail[4 * g + 3];
  }

  lemma InputShift(s: Bytes, g: nat)
    requires |s| >= 3
    ensures InputGroup(s, g + 1) == InputGroup(s[3..], g)
  {
  }

  lemma PadShift(n: nat)
    requires n >= 3
    ensures PadCount(n) == PadCount(n - 3) && (n + 2) / 3 == (n - 3 + 2) / 3 + 1
  {
  }

  /** A full group in front of an encoding. */
  lemma JoinMeets(s: Bytes, head: Bytes, tail: Bytes)
    requires |s| >= 3 && MeetsStandard(s[3..], tail)
    requires |head| == 4 && forall i | 0 <= i < 4 :: head[i] != PAD && Value(head[i]).Some?
    requires OutputGroup(head, 0) == InputGroup(s, 0)
    ensures MeetsStandard(s, head + tail)
  {
    PadShift(|s|);
    var e := head + tail;
    assert e[0] == head[0] && e[1] == head[1] && e[2] == head[2] && e[3] == head[3];
    forall g | 0 <= g < (|s| + 2) / 3 ensures OutputGroup(e, g) == InputGroup(s, g) {
      if g > 0 { JoinMeetsAt(s, head, tail, g - 1); }
    }
  }

  lemma JoinMeetsAt(s: Bytes, head: Bytes, tail: Bytes, g: nat)
    requires |s| >= 3 && |head| == 4 && 4 * g + 4 <= |tail| && OutputGroup(tail, g) == InputGroup(s[3..], g)
    ensures OutputGroup(head + tail, g + 1) == InputGroup(s, g + 1)
  {
    GroupShift(head, tail, g);
    InputShift(s, g);
  }

  function Group(i: nat, j: nat, k: nat, l: nat): Bytes
    requires i < 64 && j < 64 && k < 64 && l < 64
  {
    [Char(i), Char(j), Char(k), Char(l)]
  }

  lemma GroupCharacters(i: nat, j: nat, k: nat, l: nat)
    requires i < 64 && j < 64 && k < 64 && l < 64
    ensures var head := Group(i, j, k, l);
      && OutputGroup(head, 0) == ((i * 64 + j) * 64 + k) * 64 + l
      && forall n | 0 <= n < 4 :: head[n] != PAD && Value(head[n]).Some?
  {
    CharReadsBack(i);
    CharReadsBack(j);
    CharReadsBack(k);
    CharReadsBack(l);
  }

  lemma OneMeets(a: byte)
    ensures MeetsStandard([a], Encode([a]))
  {
    GroupBits(a, 0, 0);
    CharReadsBack(Bits1(a));
    CharReadsBack(Bits2(a, 0));
    var e := Encode([a]);
    assert e == [Char(Bits1(a)), Char(Bits2(a, 0)), PAD, PAD];
    assert Digit(PAD) == 0 && Bits3(0, 0) == 0 && Bits4(0) == 0;
    assert OutputGroup(e, 0) == InputGroup([a], 0);
  }

  lemma TwoMeets(a: byte, b: byte)
    ensures MeetsStandard([a, b], Encode([a, b]))
  {
    GroupBits(a, b, 0);
    CharReadsBack(Bits1(a));
    CharReadsBack(Bits2(a, b));
    CharReadsBack(Bits3(b, 0));
    var e := Encode([a, b]);
    assert e == [Char(Bits1(a)), Char(Bits2(a, b)), Char(Bits3(b, 0)), PAD];
    assert Digit(PAD) == 0 && Bits4(0) == 0;
    assert OutputGroup(e, 0) == InputGroup([a, b], 0);
  }

  /** The length, the padding and every 24-bit group of an encoding are those of the standard. */
  lemma {:induction false} EncodeMeetsStandard(s: Bytes)
    ensures MeetsStandard(s, Encode(s))
  {
    if |s| == 1 {
      OneMeets(s[0]);
      assert s == [s[0]];
    } else if |s| == 2 {
      TwoMeets(s[0], s[1]);
      assert s == [s[0], s[1]];
    } else if |s| >= 3 {
      EncodeMeetsStandard(s[3..]);
      GroupCharacters(Bits1(s[0]), Bits2(s[0], s[1]), Bits3(s[1], s[2]), Bits4(s[2]));
      GroupBits(s[0], s[1], s[2]);
      JoinMeets(s, Group(Bits1(s[0]), Bits2(s[0], s[1]), Bits3(s[1], s[2]), Bits4(s[2])), Encode(s[3..]));
    }
  }

  /** The standard leaves no choice: two texts that meet it for the same bytes are equal. */
  lemma StandardIsUnique(s: Bytes, e: Bytes, d: Bytes)
    requires MeetsStandard(s, e) && MeetsStandard(s, d)
    ensures e == d
  {
    forall i | 0 <= i < |e| ensures e[i] == d[i] {
      var g := i / 4;
      assert g < (|s| + 2) / 3;
      assert OutputGroup(e, g) == OutputGroup(d, g);
      SameDigits(e, d, g);
      assert i == 4 * g || i == 4 * g + 1 || i == 4 * g + 2 || i == 4 * g + 3;
      if e[i] != PAD { SameValue(e[i], d[i]); }
    }
  }

  lemma SameDigits(e: Bytes, d: Bytes, g: nat)
    requires 4 * g + 4 <= |e| && 4 * g + 4 <= |d| && OutputGroup(e, g) == OutputGroup(d, g)
    ensures Digit(e[4 * g]) == Digit(d[4 * g]) && Digit(e[4 * g + 1]) == Digit(d[4 * g + 1])
    ensures Digit(e[4 * g + 2]) == Digit(d[4 * g + 2]) && Digit(e[4 * g + 3]) == Digit(d[4 * g + 3])
  {
    FourDigits(Digit(e[4 * g]), Digit(e[4 * g + 1]), Digit(e[4 * g + 2]), Digit(e[4 * g + 3]),
               Digit(d[4 * g]), Digit(d[4 * g + 1]), Digit(d[4 * g + 2]), Digit(d[4 * g + 3]));
  }

  lemma FourDigits(a: nat, b: nat, c: nat, d: nat, a': nat, b': nat, c': nat, d': nat)
    requires a < 64 && b < 64 && c < 64 && d < 64 && a' < 64 && b' < 64 && c' < 64 && d' < 64
    requires ((a * 64 + b) * 64 + c) * 64 + d == ((a' * 64 + b') * 64 + c') * 64 + d'
    ensures a == a' && b == b' && c == c' && d == d'
  {
  }

  lemma SameValue(c: byte, d: byte)
    requires Value(c).Some? && Value(d).Some? && Value(c) == Value(d)
    ensures c == d
  {
    ValueIsPosition(c, Value(c).value);
    ValueIsPosition(d, Value(c).value);
  }

  // ---------------------------------------------------------------------------------------------
  // What decoding accepts and yields

  /** Padding at the end of an encoded text: two characters, one, or none. */
  function Padding(e: Bytes): nat {
    if |e| >= 2 && e[|e| - 1] == PAD && e[|e| - 2] == PAD then 2 else if |e| >= 1 && e[|e| - 1] == PAD then 1 else 0
  }

  /** Whole groups of four characters of the table, the last one possibly padded. */
  predicate Grouped(e: Bytes) {
    |e| % 4 == 0 && forall i | 0 <= i < |e| - Padding(e) :: Value(e[i]).Some?
  }

  /** Decoding accepts exactly the grouped texts. */
  lemma {:induction false} DecodeAcceptsIff(e: Bytes)
    ensures DecodeGroups(e).Some? <==> Grouped(e)
  {
    if |e| == 4 {
      assert DecodeGroups(e[4..]) == Some([]);
    } else if |e| > 4 {
      DecodeAcceptsIff(e[4..]);
      MoreGroups(e);
    }
  }

  lemma MoreGroups(e: Bytes)
    requires |e| > 4
    ensures Grouped(e) <==> Grouped(e[4..]) && forall i | 0 <= i < 4 :: Value(e[i]).Some?
  {
    var t := e[4..];
    assert forall i | 0 <= i < |t| :: t[i] == e[i + 4];
    if |t| >= 2 {
      assert Padding(t) == Padding(e);
      if Grouped(e) {
        forall i | 0 <= i < |t| - Padding(t) ensures Value(t[i]).Some? { assert Value(e[i + 4]).Some?; }
      }
      if Grouped(t) && (forall i | 0 <= i < 4 :: Value(e[i]).Some?) {
        forall i | 0 <= i < |e| - Padding(e) ensures Value(e[i]).Some? {
          if i >= 4 { assert Value(t[i - 4]).Some?; }
        }
      }
    }
  }

  /** The padding of the g-th group: only the last one has any. */
  function GroupPadding(e: Bytes, g: nat): nat {
    if 4 * g + 4 < |e| then 0 else Padding(e)
  }

  /** 24 bits without the last 8 or 16, which the bytes of a padded group do not use. */
  function Used(v: nat, padding: nat): nat {
    if padding == 0 then v else if padding == 1 then v / 0x100 * 0x100 else v / 0x1_0000 * 0x1_0000
  }

  /** r is what e stands for: the bytes of each group of characters, without the unused bits of the last. */
  ghost predicate StandsFor(e: Bytes, r: Bytes) {
    && |e| % 4 == 0 && |r| + Padding(e) == |e| / 4 * 3
    && forall g | 0 <= 4 * g < |e| :: GroupStands(e, r, g)
  }

  predicate GroupStands(e: Bytes, r: Bytes, g: nat)
    requires |e| % 4 == 0 && 4 * g < |e|
  {
    InputGroup(r, g) == Used(OutputGroup(e, g), GroupPadding(e, g))
  }

  /** Decoding yields the bytes the text stands for, with unused bits of a padded group ignored. */
  lemma {:induction false} DecodeMeetsStandard(e: Bytes)
    requires Grouped(e)
    ensures DecodeGroups(e).Some? && StandsFor(e, DecodeGroups(e).value)
  {
    DecodeAcceptsIff(e);
    if |e| == 4 {
      LastGroup(e);
    } else if |e| > 4 {
      MoreGroups(e);
      DecodeMeetsStandard(e[4..]);
      var r := DecodeGroups(e[4..]).value;
      var i, j, k, l := Digit(e[0]), Digit(e[1]), Digit(e[2]), Digit(e[3]);
      assert DecodeGroups(e).value == [Join(i, j), Middle(j, k), Low(k, l)] + r;
      JoinStands(e, r);
    }
  }

  lemma GroupBytes(i: nat, j: nat, k: nat, l: nat)
    requires i < 64 && j < 64 && k < 64 && l < 64
    ensures Join(i, j) * 0x1_0000 + Middle(j, k) * 0x100 + Low(k, l) == ((i * 64 + j) * 64 + k) * 64 + l
  {
    assert j == j / 16 * 16 + j % 16;
    assert k == k / 4 * 4 + k % 4;
  }

  lemma JoinStands(e: Bytes, r: Bytes)
    requires |e| > 4 && Grouped(e) && StandsFor(e[4..], r)
    ensures var i, j, k, l := Digit(e[0]), Digit(e[1]), Digit(e[2]), Digit(e[3]);
      StandsFor(e, [Join(i, j), Middle(j, k), Low(k, l)] + r)
  {
    var i, j, k, l := Digit(e[0]), Digit(e[1]), Digit(e[2]), Digit(e[3]);
    GroupBytes(i, j, k, l);
    PrependStands(e, r, Join(i, j), Middle(j, k), Low(k, l));
  }

  lemma PrependStands(e: Bytes, r: Bytes, a: byte, b: byte, c: byte)
    requires |e| > 4 && StandsFor(e[4..], r) && OutputGroup(e, 0) == a * 0x1_0000 + b * 0x100 + c
    ensures StandsFor(e, [a, b, c] + r)
  {
    assert Padding(e[4..]) == Padding(e);
    assert GroupStands(e, [a, b, c] + r, 0);
    forall g: nat | 0 <= 4 * g < |e| ensures GroupStands(e, [a, b, c] + r, g) {
      if g > 0 {
        assert GroupStands(e[4..], r, g - 1);
        LaterGroup(e, r, a, b, c, g - 1);
      }
    }
  }

  lemma LaterGroup(e: Bytes, r: Bytes, a: byte, b: byte, c: byte, g: nat)
    requires 4 * g + 8 <= |e| && InputGroup(r, g) == Used(OutputGroup(e[4..], g), GroupPadding(e[4..], g))
    requires Padding(e[4..]) == Padding(e)
    ensures InputGroup([a, b, c] + r, g + 1) == Used(OutputGroup(e, g + 1), GroupPadding(e, g + 1))
  {
    var all := [a, b, c] + r;
    assert e == e[..4] + e[4..] && all[3..] == r;
    GroupShift(e[..4], e[4..], g);
    InputShift(all, g);
  }

  lemma LastGroup(e: Bytes)
    requires |e| == 4 && Grouped(e)
    ensures DecodeGroups(e).Some? && StandsFor(e, DecodeGroups(e).value)
  {
    var i, j, k, l := Digit(e[0]), Digit(e[1]), Digit(e[2]), Digit(e[3]);
    LastDecoded(e);
    LastBits(i, j, k, l);
    GroupBytes(i, j, k, l);
    OneGroup(e, DecodeGroups(e).value, Join(i, j), Middle(j, k), Low(k, l), ((i * 64 + j) * 64 + k) * 64 + l);
  }

  /** The bytes of one group, by its padding. */
  function LastBytes(i: nat, j: nat, k: nat, l: nat, padding: nat): Bytes
    requires i < 64 && j < 64 && k < 64 && l < 64
  {
    if padding == 2 then [Join(i, j)]
    else if padding == 1 then [Join(i, j), Middle(j, k)]
    else [Join(i, j), Middle(j, k), Low(k, l)]
  }

  lemma LastDecoded(e: Bytes)
    requires |e| == 4 && Grouped(e)
    ensures DecodeGroups(e) == Some(LastBytes(Digit(e[0]), Digit(e[1]), Digit(e[2]), Digit(e[3]), Padding(e)))
  {
    assert e[4..] == [];
    assert DecodeGroups(e[4..]) == Some([]);
    var i, j, k, l := Digit(e[0]), Digit(e[1]), Digit(e[2]), Digit(e[3]);
    assert [Join(i, j), Middle(j, k), Low(k, l)] + [] == [Join(i, j), Middle(j, k), Low(k, l)];
  }

  lemma OneGroup(e: Bytes, r: Bytes, a: byte, b: byte, c: byte, v: nat)
    requires |e| == 4 && OutputGroup(e, 0) == v
    requires r == if Padding(e) == 2 then [a] else if Padding(e) == 1 then [a, b] else [a, b, c]
    requires Used(v, 2) == a * 0x1_0000 && Used(v, 1) == a * 0x1_0000 + b * 0x100
    requires Used(v, 0) == a * 0x1_0000 + b * 0x100 + c
    ensures StandsFor(e, r)
  {
    assert GroupPadding(e, 0) == Padding(e);
    assert InputGroup(r, 0) == Used(v, Padding(e));
    assert GroupStands(e, r, 0);
    assert forall g: nat | 0 <= 4 * g < 4 :: g == 0;
  }

  lemma LastBits(i: nat, j: nat, k: nat, l: nat)
    requires i < 64 && j < 64 && k < 64 && l < 64
    ensures var v := ((i * 64 + j) * 64 + k) * 64 + l;
      && v / 0x1_0000 * 0x1_0000 == Join(i, j) * 0x1_0000
      && v / 0x100 * 0x100 == Join(i, j) * 0x1_0000 + Middle(j, k) * 0x100
  {
    GroupBytes(i, j, k, l);
    TopBytes(Join(i, j), Middle(j, k), Low(k, l), ((i * 64 + j) * 64 + k) * 64 + l);
  }

  lemma TopBytes(a: nat, b: nat, c: nat, v: nat)
    requires b < 256 && c < 256 && v == a * 0x1_0000 + b * 0x100 + c
    ensures v / 0x1_0000 == a && v / 0x100 == a * 0x100 + b
  {
    var low := b * 0x100 + c;
    assert low < 0x1_0000 && v == a * 0x1_0000 + low;
    assert v == (a * 0x100 + b) * 0x100 + c;
  }

  /** A newline anywhere in the text does not matter. */
  lemma NewlineIgnored(a: Bytes, c: byte, b: Bytes)
    requires c == 10 || c == 13
    ensures Decode(a + [c] + b) == Decode(a + b)
  {
    DropConcat(a + [c], b);
    DropConcat(a, [c]);
    DropConcat(a, b);
    assert [c][1..] == [];
    assert DropNewlines(a) + [] == DropNewlines(a);
  }

  lemma {:induction false} DropConcat(a: Bytes, b: Bytes)
    ensures DropNewlines(a + b) == DropNewlines(a) + DropNewlines(b)
  {
    if a == [] {
      assert a + b == b;
    } else {
      assert (a + b)[1..] == a[1..] + b;
      DropConcat(a[1..], b);
    }
  }
}
