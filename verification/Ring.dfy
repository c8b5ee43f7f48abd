/** The stream buffers of up/buffer/buffer.go: a circular buffer of the last bytes, and a head-and-tail pair. */
module Rings {
  import opened Common

  /** The last n elements, or all of them when there are fewer. */
  function Last<T>(s: seq<T>, n: nat): seq<T> {
    if |s| <= n then s else s[|s| - n..]
  }

  /** The first n elements, or all of them when there are fewer. */
  function First<T>(s: seq<T>, n: nat): seq<T> {
    if |s| <= n then s else s[..n]
  }

  lemma LastOfLast<T>(a: seq<T>, b: seq<T>, n: nat)
    ensures Last(Last(a, n) + b, n) == Last(a + b, n)
  {
  }

  lemma FirstOfFirst<T>(a: seq<T>, b: seq<T>, n: nat)
    ensures First(First(a, n) + b, n) == First(a + b, n)
  {
  }

  function Concat<T>(chunks: seq<seq<T>>): seq<T> {
    if chunks == [] then [] else Concat(chunks[..|chunks| - 1]) + chunks[|chunks| - 1]
  }

  /** What a ring of size n, and a head slab of size n, hold after writing the chunks one by one. */
  function LastWritten<T>(chunks: seq<seq<T>>, n: nat): seq<T> {
    if chunks == [] then [] else Last(LastWritten(chunks[..|chunks| - 1], n) + chunks[|chunks| - 1], n)
  }

  function FirstWritten<T>(chunks: seq<seq<T>>, n: nat): seq<T> {
    if chunks == [] then [] else First(FirstWritten(chunks[..|chunks| - 1], n) + chunks[|chunks| - 1], n)
  }

  /** The chunking of a stream does not matter: a ring holds its last bytes and a head slab its first bytes. */
  lemma {:induction false} ChunkingDoesNotMatter<T>(chunks: seq<seq<T>>, n: nat)
    ensures LastWritten(chunks, n) == Last(Concat(chunks), n)
    ensures FirstWritten(chunks, n) == First(Concat(chunks), n)
  {
    if chunks != [] {
      var before, last := chunks[..|chunks| - 1], chunks[|chunks| - 1];
      ChunkingDoesNotMatter(before, n);
      LastOfLast(Concat(before), last, n);
      FirstOfFirst(Concat(before), last, n);
    }
  }

  /** Head and tail together cover every stream that is not longer than both sizes together. */
  lemma HeadAndTailCover<T>(s: seq<T>, head: nat, tail: nat)
    ensures |s| <= head + tail ==>
      var overlap := |First(s, head)| + |Last(s, tail)| - |s|;
      0 <= overlap <= |Last(s, tail)| && First(s, head) + Last(s, tail)[overlap..] == s
    ensures |s| > head + tail ==> |First(s, head)| + |Last(s, tail)| < |s|
  {
  }

  // ---------------------------------------------------------------------------------------------
  // Reversal

  function Rev<T>(s: seq<T>): (r: seq<T>)
    ensures |r| == |s| && forall i | 0 <= i < |s| :: r[i] == s[|s| - 1 - i]
  {
    if s == [] then [] else Rev(s[1..]) + [s[0]]
  }

  /** Three reversals rotate. */
  lemma ThreeReversals<T>(a: seq<T>, b: seq<T>)
    ensures Rev(Rev(a) + Rev(b)) == b + a
  {
    var r := Rev(Rev(a) + Rev(b));
    assert |r| == |b + a|;
    forall i | 0 <= i < |r| ensures r[i] == (b + a)[i] {
    }
  }

  method ReverseInPlace<T>(a: array<T>, lo: nat, hi: nat)
    requires lo <= hi <= a.Length
    modifies a
    ensures a[lo..hi] == Rev(old(a[lo..hi]))
    ensures a[..lo] == old(a[..lo]) && a[hi..] == old(a[hi..])
  {
    ghost var was := a[..];
    assert was[lo..hi] == a[lo..hi];
    var i, j := lo, hi;
    while i + 1 < j
      invariant lo <= i <= j <= hi && i - lo == hi - j
      invariant forall k | 0 <= k < a.Length && (k < lo || hi <= k || i <= k < j) :: a[k] == was[k]
      invariant forall k | lo <= k < i || j <= k < hi :: a[k] == was[hi - 1 - (k - lo)]
    {
      a[i], a[j - 1] := a[j - 1], a[i];
      i, j := i + 1, j - 1;
    }
    forall k | lo <= k < hi ensures a[..][k] == was[hi - 1 - (k - lo)] {
      if i <= k < j { assert k == hi - 1 - (k - lo); }
    }
    SliceReversed(was, a[..], lo, hi);
  }

  lemma SliceReversed<T>(was: seq<T>, now: seq<T>, lo: nat, hi: nat)
    requires |was| == |now| && lo <= hi <= |was|
    requires forall k | lo <= k < hi :: now[k] == was[hi - 1 - (k - lo)]
    ensures now[lo..hi] == Rev(was[lo..hi])
  {
    var s, r := was[lo..hi], now[lo..hi];
    forall i | 0 <= i < |s| ensures r[i] == s[|s| - 1 - i] {
      assert r[i] == now[lo + i];
    }
    IsReversed(s, r);
  }

  lemma IsReversed<T>(s: seq<T>, r: seq<T>)
    requires |r| == |s| && forall i | 0 <= i < |s| :: r[i] == s[|s| - 1 - i]
    ensures r == Rev(s)
  {
  }

  /** slices.Reverse on both parts, then on the whole: the second part comes first. */
  method RotateInPlace(a: array<byte>, p: nat)
    requires p <= a.Length
    modifies a
    ensures a[..] == old(a[p..]) + old(a[..p])
  {
    ghost var front, back := a[..p], a[p..];
    assert a[0..p] == front;
    ReverseInPlace(a, 0, p);
    ghost var s := a[..];
    assert s[..p] == Rev(front) && s[p..] == back;
    assert a[p..a.Length] == back;
    ReverseInPlace(a, p, a.Length);
    s := a[..];
    assert s[..p] == Rev(front) && s[p..] == Rev(back);
    assert a[0..a.Length] == s == Rev(front) + Rev(back);
    ReverseInPlace(a, 0, a.Length);
    assert a[..] == a[0..a.Length];
    ThreeReversals(front, back);
  }

  // ---------------------------------------------------------------------------------------------
  // Ring

  /** Keeping the last bytes after each pass is keeping them once at the end. */
  lemma WriteStep(held: Bytes, rest: Bytes, n: nat, size: nat)
    requires n <= |rest|
    ensures Last(Last(held + rest[..n], size) + rest[n..], size) == Last(held + rest, size)
  {
    LastOfLast(held + rest[..n], rest[n..], size);
    assert (held + rest[..n]) + rest[n..] == held + rest;
  }

  /** The bytes in a ring's slots, oldest first. */
  function Held(slots: Bytes, pos: nat, full: bool): Bytes
    requires pos <= |slots|
  {
    if full then slots[pos..] + slots[..pos] else slots[..pos]
  }

  lemma HeldFits(slots: Bytes, pos: nat, full: bool)
    requires pos <= |slots|
    ensures Last(Held(slots, pos, full) + [], |slots|) == Held(slots, pos, full)
  {
  }

  lemma HeldAfterCopy(was: Bytes, pos: nat, full: bool, chunk: Bytes, now: Bytes)
    requires 0 < |chunk| && pos + |chunk| <= |was|
    requires now == was[..pos] + chunk + was[pos + |chunk|..]
    ensures var end := pos + |chunk|;
      Last(Held(was, pos, full) + chunk, |was|) == if end == |was| then Held(now, 0, true) else Held(now, end, full)
  {
    var end := pos + |chunk|;
    var all := Held(was, pos, full) + chunk;
    assert now[..end] == was[..pos] + chunk;
    if full {
      assert now[end..] == was[end..];
      assert all == was[pos..] + (was[..pos] + chunk);
      assert Last(all, |was|) == all[|chunk|..];
      assert all[|chunk|..] == was[end..] + (was[..pos] + chunk);
      if end == |was| { assert now == was[..pos] + chunk; }
    } else {
      assert Last(all, |was|) == all;
    }
  }

  // ---------------------------------------------------------------------------------------------
  // When Write's loop ends

  /** Bytes one pass of Write's loop copies: what fits before the end of the buffer. */
  function PassLength(size: nat, pos: nat, rest: nat): (n: nat)
    requires pos <= size
  {
    if rest < size - pos then rest else size - pos
  }

  /** Position and bytes still to write after k passes of the loop `for len(p) > 0`. */
  function AfterPasses(size: nat, pos: nat, rest: nat, k: nat): (r: (nat, nat))
    requires pos <= size
    ensures r.0 <= size
    decreases k
  {
    if k == 0 || rest == 0 then (pos, rest)
    else
      var n := PassLength(size, pos, rest);
      AfterPasses(size, if pos + n >= size then 0 else pos + n, rest - n, k - 1)
  }

  /** A pass makes no progress on remaining bytes exactly when the ring has size 0. */
  lemma PassStallsIff(size: nat, pos: nat, rest: nat)
    requires rest > 0 && (if size == 0 then pos == 0 else pos < size)
    ensures PassLength(size, pos, rest) == 0 <==> size == 0
  {
  }

  lemma {:induction false} EnoughPasses(size: nat, pos: nat, rest: nat)
    requires 0 < size && pos < size
    ensures AfterPasses(size, pos, rest, rest).1 == 0
    decreases rest
  {
    if rest > 0 {
      var n := PassLength(size, pos, rest);
      var next := if pos + n >= size then 0 else pos + n;
      EnoughPasses(size, next, rest - n);
      MorePasses(size, next, rest - n, rest - n, rest - 1);
    }
  }

  lemma {:induction false} MorePasses(size: nat, pos: nat, rest: nat, k: nat, m: nat)
    requires pos <= size && k <= m && AfterPasses(size, pos, rest, k).1 == 0
    ensures AfterPasses(size, pos, rest, m).1 == 0
    decreases k
  {
    if rest > 0 {
      var n := PassLength(size, pos, rest);
      MorePasses(size, if pos + n >= size then 0 else pos + n, rest - n, k - 1, m - 1);
    }
  }

  lemma {:induction false} StalledForever(rest: nat, k: nat)
    ensures AfterPasses(0, 0, rest, k) == (0, rest)
    decreases k
  {
    if k > 0 && rest > 0 { StalledForever(rest, k - 1); }
  }

  /** Write returns on exactly the rings of positive size, and on every ring when there is nothing to write. */
  lemma WriteReturnsIff(size: nat, pos: nat, rest: nat)
    requires if size == 0 then pos == 0 else pos < size
    ensures (exists k :: AfterPasses(size, pos, rest, k).1 == 0) <==> size > 0 || rest == 0
  {
    if size > 0 {
      EnoughPasses(size, pos, rest);
    } else {
      forall k: nat ensures AfterPasses(size, pos, rest, k).1 == rest {
        StalledForever(rest, k);
      }
      assert AfterPasses(size, pos, rest, 0).1 == rest;
    }
  }

  class Ring {
    const data: array<byte>
    var pos: nat
    var full: bool

    ghost predicate Valid()
      reads this, data
    {
      if data.Length == 0 then pos == 0 && !full else pos < data.Length
    }

    /** The bytes held, oldest first. */
    ghost function Contents(): Bytes
      requires Valid()
      reads this, data
    {
      Held(data[..], pos, full)
    }

    constructor (size: nat)
      ensures Valid() && Contents() == [] && data.Length == size && fresh(data)
    {
      data := new byte[size](_ => 0);
      pos, full := 0, false;
    }

    /** One pass of Write's loop: copies what fits before the end of the buffer. */
    method CopyChunk(chunk: Bytes)
      requires Valid() && 0 < |chunk| <= data.Length - pos
      modifies this, data
      ensures Valid() && Contents() == Last(old(Contents()) + chunk, data.Length)
    {
      ghost var was, p, f := data[..], pos, full;
      var n := |chunk|;
      forall i | 0 <= i < n { data[pos + i] := chunk[i]; }
      assert data[..] == was[..p] + chunk + was[p + n..];
      pos := pos + n;
      if pos >= data.Length {
        pos, full := 0, true;
      }
      HeldAfterCopy(was, p, f, chunk, data[..]);
    }

    method CopySome(rest: Bytes) returns (n: nat)
      requires Valid() && data.Length > 0 && |rest| > 0
      modifies this, data
      ensures n == PassLength(data.Length, old(pos), |rest|)
      ensures Valid() && 0 < n <= |rest| && Contents() == Last(old(Contents()) + rest[..n], data.Length)
    {
      n := if |rest| < data.Length - pos then |rest| else data.Length - pos;
      CopyChunk(rest[..n]);
    }

    /** Appends p, overwriting the oldest bytes. A ring of size 0 accepts only empty writes. */
    method Write(p: Bytes)
      requires Valid() && (data.Length > 0 || p == [])
      modifies this, data
      ensures Valid() && Contents() == Last(old(Contents()) + p, data.Length)
    {
      var rest := p;
      ghost var want := Last(Contents() + p, data.Length);
      while |rest| > 0
        invariant Valid() && (data.Length > 0 || rest == [])
        invariant Last(Contents() + rest, data.Length) == want
        decreases |rest|
      {
        ghost var held := Contents();
        var n := CopySome(rest);
        WriteStep(held, rest, n, data.Length);
        rest := rest[n..];
      }
      HeldFits(data[..], pos, full);
    }

    /** Linearises by three reversals. A full ring is empty afterwards; a ring that is not full keeps its bytes. */
    method TakeBytes() returns (r: Bytes)
      requires Valid()
      modifies this, data
      ensures Valid() && r == old(Contents())
      ensures Contents() == if old(full) then [] else old(Contents())
    {
      if !full { return data[..pos]; }
      RotateInPlace(data, pos);
      pos, full := 0, false;
      r := data[..];
    }

    method Reset()
      requires Valid()
      modifies `pos, `full
      ensures Valid() && Contents() == []
    {
      pos, full := 0, false;
    }

    method Len() returns (n: nat)
      requires Valid()
      ensures n == |Contents()|
    {
      n := if full then data.Length else pos;
    }
  }

  // ---------------------------------------------------------------------------------------------
  // HeadTail

  class HeadTail {
    const head: array<byte>
    var headN: nat
    const tail: Ring

    ghost predicate Valid()
      reads this, tail, tail.data
    {
      headN <= head.Length && head != tail.data && tail.Valid()
    }

    ghost function HeadBytes(): Bytes
      requires Valid()
      reads this, head, tail, tail.data
    {
      head[..headN]
    }

    constructor (headSize: nat, tailSize: nat)
      ensures Valid() && HeadBytes() == [] && tail.Contents() == []
      ensures head.Length == headSize && tail.data.Length == tailSize && fresh(head) && fresh(tail) && fresh(tail.data)
    {
      head := new byte[headSize](_ => 0);
      headN := 0;
      tail := new Ring(tailSize);
    }

    method Write(p: Bytes)
      requires Valid() && (tail.data.Length > 0 || p == [])
      modifies this, head, tail, tail.data
      ensures Valid()
      ensures HeadBytes() == First(old(HeadBytes()) + p, head.Length)
      ensures tail.Contents() == Last(old(tail.Contents()) + p, tail.data.Length)
    {
      ghost var was := HeadBytes();
      if headN < head.Length {
        var n := if |p| < head.Length - headN then |p| else head.Length - headN;
        forall i | 0 <= i < n { head[headN + i] := p[i]; }
        headN := headN + n;
        assert head[..headN] == was + p[..n];
      }
      assert HeadBytes() == First(was + p, head.Length);
      tail.Write(p);
    }

    method Head() returns (r: Bytes)
      requires Valid()
      ensures r == HeadBytes()
    {
      r := head[..headN];
    }

    method Tail() returns (r: Bytes)
      requires Valid()
      modifies tail, tail.data
      ensures Valid() && r == old(tail.Contents()) && HeadBytes() == old(HeadBytes())
    {
      r := tail.TakeBytes();
    }

    method Reset()
      requires Valid()
      modifies `headN, tail
      ensures Valid() && HeadBytes() == [] && tail.Contents() == []
    {
      headN := 0;
      tail.Reset();
    }
  }

  // ---------------------------------------------------------------------------------------------
  // Whole streams

  lemma WrittenSnoc<T>(chunks: seq<seq<T>>, i: nat, n: nat)
    requires i < |chunks|
    ensures LastWritten(chunks[..i + 1], n) == Last(LastWritten(chunks[..i], n) + chunks[i], n)
    ensures FirstWritten(chunks[..i + 1], n) == First(FirstWritten(chunks[..i], n) + chunks[i], n)
  {
    assert chunks[..i + 1][..i] == chunks[..i];
  }

  /** A stream written into a new ring in any chunks and then read: its last bytes, oldest first. */
  method RecordTail(size: nat, chunks: seq<Bytes>) returns (r: Bytes)
    requires size > 0 || forall c | c in chunks :: c == []
    ensures r == Last(Concat(chunks), size)
  {
    var ring := new Ring(size);
    for i := 0 to |chunks|
      invariant fresh(ring) && fresh(ring.data) && ring.Valid() && ring.data.Length == size
      invariant ring.Contents() == LastWritten(chunks[..i], size)
    {
      assert chunks[i] in chunks;
      ring.Write(chunks[i]);
      WrittenSnoc(chunks, i, size);
    }
    assert chunks[..|chunks|] == chunks;
    ChunkingDoesNotMatter(chunks, size);
    r := ring.TakeBytes();
  }

  /** The chunks of a stream, one Write each, into an empty HeadTail. */
  method FeedAll(ht: HeadTail, chunks: seq<Bytes>)
    requires ht.Valid() && ht.HeadBytes() == [] && ht.tail.Contents() == []
    requires ht.tail.data.Length > 0 || forall c | c in chunks :: c == []
    modifies ht, ht.head, ht.tail, ht.tail.data
    ensures ht.Valid() && ht.HeadBytes() == First(Concat(chunks), ht.head.Length)
    ensures ht.tail.Contents() == Last(Concat(chunks), ht.tail.data.Length)
  {
    for i := 0 to |chunks|
      invariant ht.Valid() && ht.HeadBytes() == FirstWritten(chunks[..i], ht.head.Length)
      invariant ht.tail.Contents() == LastWritten(chunks[..i], ht.tail.data.Length)
    {
      assert chunks[i] in chunks;
      ht.Write(chunks[i]);
      WrittenSnoc(chunks, i, ht.head.Length);
      WrittenSnoc(chunks, i, ht.tail.data.Length);
    }
    assert chunks[..|chunks|] == chunks;
    ChunkingDoesNotMatter(chunks, ht.head.Length);
    ChunkingDoesNotMatter(chunks, ht.tail.data.Length);
  }

  /**
   A stream written into a new HeadTail in any chunks and then read: its first and last bytes, and all of it when it
   is not longer than both sizes together.
   */
  method RecordEnds(headSize: nat, tailSize: nat, chunks: seq<Bytes>) returns (head: Bytes, tail: Bytes)
    requires tailSize > 0 || forall c | c in chunks :: c == []
    ensures head == First(Concat(chunks), headSize) && tail == Last(Concat(chunks), tailSize)
    ensures |Concat(chunks)| <= headSize + tailSize ==>
      var overlap := |head| + |tail| - |Concat(chunks)|;
      0 <= overlap <= |tail| && head + tail[overlap..] == Concat(chunks)
  {
    var ht := new HeadTail(headSize, tailSize);
    FeedAll(ht, chunks);
    HeadAndTailCover(Concat(chunks), headSize, tailSize);
    head := ht.Head();
    tail := ht.Tail();
  }
}
