/** The gRPC length-prefixed frame of up/grpc.go: one flag byte, four big-endian length bytes, the message. */
module Grpc {
  import opened Common

  const UINT32 := 0x1_0000_0000

  function BigEndian(n: nat): (r: Bytes)
    requires n < UINT32
    ensures |r| == 4
  {
    [n / 0x100_0000, n / 0x1_0000 % 256, n / 256 % 256, n % 256]
  }

  function Word(a: int, b: int, c: int, d: int): int {
    ((a * 256 + b) * 256 + c) * 256 + d
  }

  function FromBigEndian(b: Bytes): (n: nat)
    requires |b| == 4
    ensures n < UINT32
  {
    Word(b[0], b[1], b[2], b[3])
  }

  /** encodeGRPCFrame; the length is truncated to 32 bits as the conversion to uint32 does. */
  function EncodeFrame(msg: Bytes): Bytes {
    [0] + BigEndian(|msg| % UINT32) + msg
  }

  /** decodeGRPCFrame; None stands for its nil result. */
  function DecodeFrame(raw: Bytes): Option<Bytes> {
    if |raw| < 5 || raw[0] != 0 then None
    else
      var end := 5 + FromBigEndian(raw[1..5]);
      if end > |raw| then None else Some(raw[5..end])
  }

  lemma BigEndianReadsBack(n: nat)
    requires n < UINT32
    ensures FromBigEndian(BigEndian(n)) == n
  {
    var n1 := n / 256;
    var n2 := n1 / 256;
    DivideTwice(n, n1, n2);
    assert n == n1 * 256 + n % 256 && n1 == n2 * 256 + n1 % 256 && n2 == n2 / 256 * 256 + n2 % 256;
  }

  lemma DivideTwice(n: nat, n1: nat, n2: nat)
    requires n1 == n / 256 && n2 == n1 / 256
    ensures n / 0x1_0000 == n2 && n / 0x100_0000 == n2 / 256
  {
  }

  /** A frame decodes to its message, whatever follows it, exactly when the message length fits in 32 bits. */
  lemma FrameRoundTrip(msg: Bytes, rest: Bytes)
    ensures DecodeFrame(EncodeFrame(msg) + rest) == Some(msg) <==> |msg| < UINT32
  {
    var raw := EncodeFrame(msg) + rest;
    BigEndianReadsBack(|msg| % UINT32);
    assert raw[1..5] == BigEndian(|msg| % UINT32);
    assert raw[5..5 + |msg|] == msg;
  }

  /** The bytes of a frame: flag 0, the length from the most significant byte down, the message. */
  lemma FrameBytes(msg: Bytes)
    ensures var e, n := EncodeFrame(msg), |msg| % 0x1_0000_0000;
      && |e| == 5 + |msg| && e[0] == 0 && e[5..] == msg
      && e[1] == n / 0x100_0000 && e[2] == n / 0x1_0000 % 0x100 && e[3] == n / 0x100 % 0x100 && e[4] == n % 0x100
  {
    var n := |msg| % UINT32;
    assert EncodeFrame(msg)[1..5] == BigEndian(n);
  }

  /** A length in network byte order. */
  function NetworkOrder(b1: int, b2: int, b3: int, b4: int): int {
    b1 * 0x100_0000 + b2 * 0x1_0000 + b3 * 0x100 + b4
  }

  /** A frame is read with the first length byte as the most significant one, and refused when it is cut short. */
  lemma DecodeReads(raw: Bytes)
    ensures DecodeFrame(raw).Some? <==>
      |raw| >= 5 && raw[0] == 0 && 5 + NetworkOrder(raw[1], raw[2], raw[3], raw[4]) <= |raw|
    ensures DecodeFrame(raw).Some? ==>
      DecodeFrame(raw).value == raw[5..5 + NetworkOrder(raw[1], raw[2], raw[3], raw[4])]
  {
    if |raw| >= 5 {
      var b := raw[1..5];
      assert b[0] == raw[1] && b[1] == raw[2] && b[2] == raw[3] && b[3] == raw[4];
      assert FromBigEndian(b) == NetworkOrder(b[0], b[1], b[2], b[3]);
    }
  }

  lemma WordBytes(a: byte, b: byte, c: byte, d: byte)
    ensures var n := Word(a, b, c, d);
      n / 0x100_0000 == a && n / 0x1_0000 % 256 == b && n / 256 % 256 == c && n % 256 == d
  {
    var n := Word(a, b, c, d);
    assert n / 256 == Word(0, a, b, c);
    assert n / 0x1_0000 == Word(0, 0, a, b);
  }

  lemma SameWord(b: Bytes)
    requires |b| == 4
    ensures BigEndian(FromBigEndian(b)) == b
  {
    WordBytes(b[0], b[1], b[2], b[3]);
  }

  lemma FrameOf(msg: Bytes, b: Bytes)
    requires |b| == 4 && |msg| == FromBigEndian(b)
    ensures EncodeFrame(msg) == [0] + b + msg
  {
    SameWord(b);
    InRange(FromBigEndian(b));
  }

  lemma InRange(n: nat)
    requires n < UINT32
    ensures n % UINT32 == n
  {
  }

  /** No other first frame decodes to the same message: decoding determines the flag, the length and the bytes. */
  lemma DecodedFrameIsAFrame(raw: Bytes)
    requires DecodeFrame(raw).Some?
    ensures EncodeFrame(DecodeFrame(raw).value) <= raw
  {
    var b := raw[1..5];
    var n := FromBigEndian(b);
    var msg := raw[5..5 + n];
    FrameOf(msg, b);
    assert raw[..5 + n] == [0] + b + msg;
  }
}
