/** Adler-32, section 2.2 of RFC 1950. */
module Adler {
  import opened Bytes

  const BASE := 65521

  datatype Sums = Sums(a: int, b: int)

  /** Both running sums over the data, from a given start. */
  function Run(s: Sums, data: seq<byte>): Sums
    decreases data
  {
    if data == [] then s
    else
      var a := (s.a + data[0]) % BASE;
      Run(Sums(a, (s.b + a) % BASE), data[1..])
  }

  function Adler32(data: seq<byte>): (c: nat)
    ensures c < 0x1_0000_0000
  {
    var s := Run(Sums(1, 0), data);
    RunBounds(Sums(1, 0), data);
    s.b * 65536 + s.a
  }

  lemma {:induction false} RunBounds(s: Sums, data: seq<byte>)
    requires 0 <= s.a < BASE && 0 <= s.b < BASE
    ensures var r := Run(s, data); 0 <= r.a < BASE && 0 <= r.b < BASE
    decreases data
  {
    if data != [] {
      var a := (s.a + data[0]) % BASE;
      RunBounds(Sums(a, (s.b + a) % BASE), data[1..]);
    }
  }

  lemma {:induction false} RunAppend(s: Sums, x: seq<byte>, y: seq<byte>)
    ensures Run(s, x + y) == Run(Run(s, x), y)
    decreases x
  {
    if x == [] {
      assert x + y == y;
    } else {
      var a := (s.a + x[0]) % BASE;
      RunAppend(Sums(a, (s.b + a) % BASE), x[1..], y);
      assert (x + y)[1..] == x[1..] + y;
    }
  }

  // ----- what the checksum is -----

  function Sum(data: seq<byte>): nat
    decreases data
  {
    if data == [] then 0 else data[0] + Sum(data[1..])
  }

  /** Every byte times the number of bytes from it to the end. */
  function WeightedSum(data: seq<byte>): nat
    decreases data
  {
    if data == [] then 0 else |data| * data[0] + WeightedSum(data[1..])
  }

  lemma {:induction false} RunIsPlainSums(s: Sums, data: seq<byte>)
    ensures var r := Run(s, data);
      && (r.a - (s.a + Sum(data))) % 65521 == 0
      && (r.b - (s.b + |data| * s.a + WeightedSum(data))) % 65521 == 0
    decreases data
  {
    if data != [] {
      var a := (s.a + data[0]) % 65521;
      var t := Sums(a, (s.b + a) % 65521);
      RunIsPlainSums(t, data[1..]);
      OneByteOn(s, t, data[0], |data| - 1, Sum(data[1..]), WeightedSum(data[1..]), Run(t, data[1..]));
    }
  }

  lemma OneByteOn(s: Sums, t: Sums, x: byte, n: nat, sum: nat, weighted: nat, r: Sums)
    requires t.a == (s.a + x) % 65521 && t.b == (s.b + t.a) % 65521
    requires (r.a - (t.a + sum)) % 65521 == 0 && (r.b - (t.b + n * t.a + weighted)) % 65521 == 0
    ensures (r.a - (s.a + x + sum)) % 65521 == 0
    ensures (r.b - (s.b + (n + 1) * s.a + (n + 1) * x + weighted)) % 65521 == 0
  {
    var q1, q2 := (s.a + x) / 65521, (s.b + t.a) / 65521;
    var k1, k2 := (r.a - (t.a + sum)) / 65521, (r.b - (t.b + n * t.a + weighted)) / 65521;
    assert r.a - (s.a + x + sum) == 65521 * (k1 - q1);
    assert n * t.a == n * (s.a + x) - 65521 * (n * q1) by { Scaled(n, t.a, s.a + x, q1); }
    assert r.b - (s.b + (n + 1) * s.a + (n + 1) * x + weighted) == 65521 * (k2 - q2 - q1 - n * q1);
  }

  lemma Scaled(n: nat, a: int, y: int, q: int)
    requires a == y - 65521 * q
    ensures n * a == n * y - 65521 * (n * q)
  {
  }

  /**
   The checksum has the plain sum of the bytes, from 1, in its low half, and the sum in which every byte
   counts once for each byte from it on, from the number of bytes, in its high half, both modulo 65521.
   */
  lemma ChecksumIsPlainSums(data: seq<byte>)
    ensures Adler32(data) % 65536 == (1 + Sum(data)) % 65521
    ensures Adler32(data) / 65536 == (|data| + WeightedSum(data)) % 65521
  {
    hide Run, Sum, WeightedSum;
    var r := Run(Sums(1, 0), data);
    RunBounds(Sums(1, 0), data);
    RunIsPlainSums(Sums(1, 0), data);
    SameResidue(r.a, 1 + Sum(data));
    SameResidue(r.b, |data| + WeightedSum(data));
    HalvesApart(Adler32(data), r.b, r.a);
  }

  lemma HalvesApart(c: nat, high: int, low: int)
    requires c == high * 65536 + low && 0 <= low < 65536
    ensures c % 65536 == low && c / 65536 == high
  {
  }

  lemma SameResidue(r: int, x: int)
    requires 0 <= r < 65521 && (r - x) % 65521 == 0
    ensures r == x % 65521
  {
  }

  /** Two runs over the same data keep a difference of their first sums. */
  lemma {:induction false} FirstSumsStayApart(s: Sums, t: Sums, data: seq<byte>)
    requires (s.a - t.a) % BASE != 0
    ensures Run(s, data).a != Run(t, data).a
    decreases data
  {
    if data != [] {
      var sa, ta := (s.a + data[0]) % BASE, (t.a + data[0]) % BASE;
      ShiftKeepsDifference(s.a, t.a, data[0]);
      FirstSumsStayApart(Sums(sa, (s.b + sa) % BASE), Sums(ta, (t.b + ta) % BASE), data[1..]);
    }
  }

  /** When the first sums agree, a difference of the second sums is kept. */
  lemma {:induction false} SecondSumsStayApart(s: Sums, t: Sums, data: seq<byte>)
    requires s.a == t.a && (s.b - t.b) % BASE != 0
    ensures Run(s, data).b != Run(t, data).b
    decreases data
  {
    if data != [] {
      var a := (s.a + data[0]) % BASE;
      ShiftKeepsDifference(s.b, t.b, a);
      SecondSumsStayApart(Sums(a, (s.b + a) % BASE), Sums(a, (t.b + a) % BASE), data[1..]);
    }
  }

  lemma ShiftKeepsDifference(x: int, y: int, d: int)
    ensures ((x + d) % BASE - (y + d) % BASE) % BASE == (x - y) % BASE
  {
  }

  lemma SumsDetermineChecksum(x: seq<byte>, y: seq<byte>)
    requires Adler32(x) == Adler32(y)
    ensures Run(Sums(1, 0), x) == Run(Sums(1, 0), y)
  {
    RunBounds(Sums(1, 0), x);
    RunBounds(Sums(1, 0), y);
    PairUnique(Run(Sums(1, 0), x), Run(Sums(1, 0), y));
  }

  lemma PairUnique(s: Sums, t: Sums)
    requires 0 <= s.a < BASE && 0 <= t.a < BASE
    requires s.b * 65536 + s.a == t.b * 65536 + t.a
    ensures s == t
  {
  }

  lemma DifferentBytesMoveApart(s: Sums, x: byte, y: byte)
    requires x != y
    ensures (Run(s, [x]).a - Run(s, [y]).a) % BASE != 0
  {
    assert Run(s, [x]).a == (s.a + x) % BASE;
    assert Run(s, [y]).a == (s.a + y) % BASE;
    ShiftApart(s.a, x, y);
  }

  lemma ShiftApart(a: int, x: byte, y: byte)
    requires x != y
    ensures ((a + x) % BASE - (a + y) % BASE) % BASE != 0
  {
    ShiftKeepsDifference(x, y, a);
  }

  /** Changing one byte changes the checksum. */
  lemma OneByteChangeDetected(pre: seq<byte>, x: byte, y: byte, post: seq<byte>)
    requires x != y
    ensures Adler32(pre + [x] + post) != Adler32(pre + [y] + post)
  {
    var s := Run(Sums(1, 0), pre);
    var sx, sy := Run(s, [x]), Run(s, [y]);
    RunAppend(Sums(1, 0), pre, [x]);
    RunAppend(Sums(1, 0), pre, [y]);
    RunAppend(Sums(1, 0), pre + [x], post);
    RunAppend(Sums(1, 0), pre + [y], post);
    DifferentBytesMoveApart(s, x, y);
    FirstSumsStayApart(sx, sy, post);
    if Adler32(pre + [x] + post) == Adler32(pre + [y] + post) {
      SumsDetermineChecksum(pre + [x] + post, pre + [y] + post);
    }
  }

  lemma RunTwo(s: Sums, x: byte, y: byte)
    ensures var r := Run(s, [x, y]);
      && r.a == (s.a + x + y) % BASE
      && (r.b - (s.b + 2 * s.a + 2 * x + y)) % BASE == 0
  {
    var a1 := (s.a + x) % BASE;
    var b1 := (s.b + a1) % BASE;
    var a2 := (a1 + y) % BASE;
    assert [x, y][1..] == [y] && [y][1..] == [];
    assert Run(s, [x, y]) == Run(Sums(a1, b1), [y]) == Sums(a2, (b1 + a2) % BASE);
    TwoSteps(s, x, y, a1, b1, a2, (b1 + a2) % BASE);
  }

  lemma TwoSteps(s: Sums, x: byte, y: byte, a1: int, b1: int, a2: int, b2: int)
    requires a1 == (s.a + x) % BASE && b1 == (s.b + a1) % BASE
    requires a2 == (a1 + y) % BASE && b2 == (b1 + a2) % BASE
    ensures a2 == (s.a + x + y) % BASE
    ensures (b2 - (s.b + 2 * s.a + 2 * x + y)) % BASE == 0
  {
    var q1, q2, q3, q4 := (s.a + x) / BASE, (s.b + a1) / BASE, (a1 + y) / BASE, (b1 + a2) / BASE;
    var k := 0 - (2 * q1 + q2 + q3 + q4);
    assert b2 - (s.b + 2 * s.a + 2 * x + y) == BASE * k;
  }

  /** Swapping two different adjacent bytes changes the checksum. */
  lemma SwapDetected(pre: seq<byte>, x: byte, y: byte, post: seq<byte>)
    requires x != y
    ensures Adler32(pre + [x, y] + post) != Adler32(pre + [y, x] + post)
  {
    var s := Run(Sums(1, 0), pre);
    var sx, sy := Run(s, [x, y]), Run(s, [y, x]);
    RunAppend(Sums(1, 0), pre, [x, y]);
    RunAppend(Sums(1, 0), pre, [y, x]);
    RunAppend(Sums(1, 0), pre + [x, y], post);
    RunAppend(Sums(1, 0), pre + [y, x], post);
    RunTwo(s, x, y);
    RunTwo(s, y, x);
    DifferenceOfSwapped(sx.b, sy.b, s.b + 2 * s.a, x, y);
    SecondSumsStayApart(sx, sy, post);
    if Adler32(pre + [x, y] + post) == Adler32(pre + [y, x] + post) {
      SumsDetermineChecksum(pre + [x, y] + post, pre + [y, x] + post);
    }
  }

  lemma DifferenceOfSwapped(p: int, q: int, c: int, x: byte, y: byte)
    requires x != y
    requires (p - (c + 2 * x + y)) % BASE == 0 && (q - (c + 2 * y + x)) % BASE == 0
    ensures (p - q) % BASE != 0
  {
  }
}

/**
 Length-prefixed frames: four bytes of length, the tag, the payload, four bytes of
 checksum over tag and payload.
 */
module Codec {
  import opened Bytes
  import opened Adler
  import opened NetBuffer

  const HeaderLen: nat := 4
  const ChecksumLen: nat := 4
  const MaxMessageLen: nat := 64 * 1024 * 1024

  datatype ErrorCode = InvalidLength | CheckSumError | UnknownMessageType | ParseError

  datatype Parsed<+M> = NoError(message: M) | Bad(code: ErrorCode)

  /** What the codec is built from: the tag, the message library's two directions, the raw filter. */
  datatype Config<!M> = Config(
    tag: seq<byte>,
    serialize: M -> seq<byte>,
    parseFromBuffer: seq<byte> -> Option<M>,
    raw: seq<byte> -> bool)
  {
    function MinMessageLen(): nat {
      |tag| + ChecksumLen
    }
  }

  /** The one law assumed of the message library. */
  ghost predicate Inverse<M(!new)>(c: Config<M>) {
    forall m :: c.parseFromBuffer(c.serialize(m)) == Some(m)
  }

  // ----- encoding -----

  function AsInt32(u: nat): int
    requires u < 0x1_0000_0000
  {
    if u < 0x8000_0000 then u else u - 0x1_0000_0000
  }

  function Checksum(data: seq<byte>): (c: int)
    ensures FitsSigned(c, 4)
  {
    FourBytes();
    AsInt32(Adler32(data))
  }

  lemma FourBytes()
    ensures Pow256(4) == 0x1_0000_0000
  {
    assert Pow256(3) == 256 * Pow256(2) && Pow256(2) == 256 * Pow256(1) && Pow256(1) == 256 * Pow256(0);
  }

  lemma ChecksumInjective(x: seq<byte>, y: seq<byte>)
    requires Checksum(x) == Checksum(y)
    ensures Adler32(x) == Adler32(y)
  {
  }

  function Body<M>(c: Config<M>, m: M): seq<byte> {
    c.tag + c.serialize(m)
  }

  function BodyLen<M>(c: Config<M>, m: M): nat {
    |c.tag| + |c.serialize(m)| + ChecksumLen
  }

  /** A message whose length fits the four-byte header. */
  predicate Encodable<M>(c: Config<M>, m: M) {
    FitsSigned(BodyLen(c, m), 4)
  }

  function Encode<M>(c: Config<M>, m: M): (f: seq<byte>)
    requires Encodable(c, m)
    ensures |f| == HeaderLen + BodyLen(c, m)
  {
    IntBytes(BodyLen(c, m), 4) + Body(c, m) + IntBytes(Checksum(Body(c, m)), 4)
  }

  lemma EncodeGroups<M>(c: Config<M>, m: M)
    requires Encodable(c, m)
    ensures Encode(c, m) == IntBytes(BodyLen(c, m), 4) + (Body(c, m) + IntBytes(Checksum(Body(c, m)), 4))
  {
    hide IntBytes, Checksum;
  }

  /**
   A frame, byte by byte: four bytes that hold the length of all that follows, most significant first,
   the tag, the payload, and the Adler-32 checksum of tag and payload, most significant byte first.
   */
  lemma FrameLayout<M>(c: Config<M>, m: M)
    requires Encodable(c, m)
    ensures var f, t, p := Encode(c, m), |c.tag|, |c.serialize(m)|;
      && |f| == 4 + t + p + 4
      && Positional(f[..4]) == t + p + 4
      && f[4..4 + t] == c.tag
      && f[4 + t..4 + t + p] == c.serialize(m)
      && Positional(f[4 + t + p..]) == Adler32(c.tag + c.serialize(m))
  {
    hide IntBytes, Positional, Adler32, FitsSigned;
    var head, body, tail := IntBytes(BodyLen(c, m), 4), Body(c, m), IntBytes(Checksum(Body(c, m)), 4);
    IntBytesAreBigEndian(BodyLen(c, m), 4);
    ChecksumBytes(body);
    var f := Encode(c, m);
    assert f == head + body + tail;
    assert f[..4] == head && f[4 + |body|..] == tail && f[4..4 + |body|] == body;
    assert f[4..4 + |c.tag|] == body[..|c.tag|] && f[4 + |c.tag|..4 + |body|] == body[|c.tag|..];
  }

  lemma ChecksumBytes(data: seq<byte>)
    ensures Positional(IntBytes(Checksum(data), 4)) == Adler32(data)
  {
    hide Adler32;
    IntBytesAreBigEndian(Checksum(data), 4);
    FourBytes();
    PlacesArePowers(4);
  }

  /** Writes the serialized message after making room for it and for the checksum. */
  method SerializeToBuffer<M>(c: Config<M>, buf: Buffer, m: M) returns (byteSize: nat)
    requires buf.Valid()
    modifies buf, buf.buffer
    ensures buf.Valid() && (buf.buffer == old(buf.buffer) || fresh(buf.buffer))
    ensures buf.Contents() == old(buf.Contents()) + c.serialize(m)
    ensures byteSize == |c.serialize(m)|
    ensures buf.readerIndex == old(buf.readerIndex) || buf.readerIndex == CheapPrepend
  {
    var bytes := c.serialize(m);
    byteSize := |bytes|;
    buf.EnsureWritableBytes(byteSize + ChecksumLen);
    buf.Append(bytes);
  }

  /** Builds the frame of m in an empty buffer, the length going into the prepend area last. */
  method FillEmptyBuffer<M>(c: Config<M>, buf: Buffer, m: M)
    requires buf.Valid() && buf.Contents() == [] && HeaderLen <= buf.PrependableBytes()
    requires Encodable(c, m)
    modifies buf, buf.buffer
    ensures buf.Valid() && (buf.buffer == old(buf.buffer) || fresh(buf.buffer))
    ensures buf.Contents() == Encode(c, m)
  {
    hide FitsSigned, IntBytes, Checksum, Encode;
    buf.Append(c.tag);
    var byteSize := SerializeToBuffer(c, buf, m);
    assert buf.Contents() == Body(c, m);
    var data := buf.Peek(buf.ReadableBytes());
    assert data == Body(c, m);
    buf.AppendInt(Checksum(data), 4);
    assert buf.ReadableBytes() == |c.tag| + byteSize + ChecksumLen;
    buf.PrependInt(buf.ReadableBytes(), HeaderLen);
    EncodeGroups(c, m);
  }

  // ----- decoding one frame -----

  function ValidateChecksum(frame: seq<byte>): bool
    requires |frame| >= ChecksumLen
  {
    Checksum(frame[..|frame| - ChecksumLen]) == BytesInt(frame[|frame| - ChecksumLen..])
  }

  function Parse<M>(c: Config<M>, frame: seq<byte>): Parsed<M>
    requires |frame| >= c.MinMessageLen()
  {
    if !ValidateChecksum(frame) then Bad(CheckSumError)
    else if frame[..|c.tag|] != c.tag then Bad(UnknownMessageType)
    else match c.parseFromBuffer(frame[|c.tag|..|frame| - ChecksumLen])
      case Some(m) => NoError(m)
      case None => Bad(ParseError)
  }

  /** What the front of the input holds. */
  datatype Head<+M> =
    | Incomplete
    | Skipped(frameLen: nat)
    | Delivered(frameLen: nat, message: M)
    | Broken(code: ErrorCode)

  function Front<M>(c: Config<M>, input: seq<byte>): (h: Head<M>)
    ensures h.Skipped? || h.Delivered? ==> HeaderLen + c.MinMessageLen() <= h.frameLen <= |input|
  {
    if |input| < c.MinMessageLen() + HeaderLen then Incomplete
    else
      var len := BytesInt(input[..4]);
      if len > MaxMessageLen || len < c.MinMessageLen() then Broken(InvalidLength)
      else if |input| >= HeaderLen + len then
        if !c.raw(input[..HeaderLen + len]) then Skipped(HeaderLen + len)
        else
          match Parse(c, input[HeaderLen..HeaderLen + len])
          case NoError(m) => Delivered(HeaderLen + len, m)
          case Bad(code) => Broken(code)
      else Incomplete
  }

  /** The length that the first four bytes give, read as a signed integer. */
  function LengthAt(input: seq<byte>): int
    requires |input| >= 4
  {
    var u := Positional(input[..4]);
    if u < 0x8000_0000 then u else u - 0x1_0000_0000
  }

  lemma HeaderIsLength(input: seq<byte>)
    requires |input| >= 4
    ensures BytesInt(input[..4]) == LengthAt(input)
  {
    BytesIntIsBigEndian(input[..4]);
    FourBytes();
    PlacesArePowers(4);
  }

  /** The checks on what a frame holds after its length. */
  predicate ChecksumFits(frame: seq<byte>)
    requires |frame| >= 4
  {
    Positional(frame[|frame| - 4..]) == Adler32(frame[..|frame| - 4])
  }

  lemma ValidateExactly(frame: seq<byte>)
    requires |frame| >= 4
    ensures ValidateChecksum(frame) <==> ChecksumFits(frame)
  {
    hide Adler32, IntBytes, BytesInt;
    var data, tail := frame[..|frame| - 4], frame[|frame| - 4..];
    BytesIntRoundTrip(tail);
    ChecksumBytes(data);
    if ChecksumFits(frame) {
      SamePositional(IntBytes(Checksum(data), 4), tail);
      IntBytesRoundTrip(Checksum(data), 4);
    }
  }

  lemma SamePositional(s: seq<byte>, t: seq<byte>)
    requires |s| == |t| && Positional(s) == Positional(t)
    ensures s == t
  {
    FromNetworkIsPositional(s);
    FromNetworkIsPositional(t);
    HostRoundTrip(s);
    HostRoundTrip(t);
  }

  /** Exactly what each front of the input is: what is refused, with which code, and what is delivered. */
  lemma FrontExactly<M>(c: Config<M>, input: seq<byte>)
    ensures var h := Front(c, input); var t := |c.tag|;
      if |input| < t + 8 then h == Incomplete
      else
        var len := LengthAt(input);
        if !(t + 4 <= len <= 67_108_864) then h == Broken(InvalidLength)
        else if |input| < 4 + len then h == Incomplete
        else
          var frame := input[4..4 + len];
          if !c.raw(input[..4 + len]) then h == Skipped(4 + len)
          else if !ChecksumFits(frame) then h == Broken(CheckSumError)
          else if !(c.tag <= frame) then h == Broken(UnknownMessageType)
          else
            var m := c.parseFromBuffer(frame[t..len - 4]);
            h == if m.None? then Broken(ParseError) else Delivered(4 + len, m.value)
  {
    hide ChecksumFits, ValidateChecksum, BytesInt, LengthAt;
    if |input| >= |c.tag| + 8 {
      HeaderIsLength(input);
      var len := LengthAt(input);
      if |c.tag| + 4 <= len <= |input| - 4 {
        ValidateExactly(input[4..4 + len]);
      }
    }
  }

  // ----- decoding a stream -----

  datatype Outcome<+M> = Outcome(messages: seq<M>, rest: seq<byte>)

  /** The messages one pass over the input delivers, and the bytes it leaves. */
  function Decode<M>(c: Config<M>, input: seq<byte>): Outcome<M>
    decreases |input|
  {
    match Front(c, input)
    case Incomplete => Outcome([], input)
    case Broken(_) => Outcome([], input)
    case Skipped(n) => Decode(c, input[n..])
    case Delivered(n, m) =>
      var tail := Decode(c, input[n..]);
      Outcome([m] + tail.messages, tail.rest)
  }

  /** What is delivered so far followed by what the unread input still decodes to is the whole outcome. */
  ghost predicate SoFar<M>(c: Config<M>, input: seq<byte>, delivered: seq<M>, now: seq<byte>) {
    Decode(c, input) == Outcome(delivered + Decode(c, now).messages, Decode(c, now).rest)
  }

  lemma SoFarSkips<M>(c: Config<M>, input: seq<byte>, delivered: seq<M>, now: seq<byte>)
    requires SoFar(c, input, delivered, now) && Front(c, now).Skipped?
    ensures SoFar(c, input, delivered, now[Front(c, now).frameLen..])
  {
  }

  lemma SoFarDelivers<M>(c: Config<M>, input: seq<byte>, delivered: seq<M>, now: seq<byte>)
    requires SoFar(c, input, delivered, now) && Front(c, now).Delivered?
    ensures SoFar(c, input, delivered + [Front(c, now).message], now[Front(c, now).frameLen..])
  {
    var tail := Decode(c, now[Front(c, now).frameLen..]);
    assert delivered + ([Front(c, now).message] + tail.messages) == delivered + [Front(c, now).message] + tail.messages;
  }

  lemma SoFarStops<M>(c: Config<M>, input: seq<byte>, delivered: seq<M>, now: seq<byte>)
    requires SoFar(c, input, delivered, now) && (Front(c, now).Incomplete? || Front(c, now).Broken?)
    ensures Outcome(delivered, now) == Decode(c, input)
  {
  }

  /** The decode loop over a buffer; error is set when the error callback was called. */
  method OnMessage<M>(c: Config<M>, buf: Buffer) returns (delivered: seq<M>, error: Option<ErrorCode>)
    requires buf.Valid()
    modifies buf`readerIndex, buf`writerIndex
    ensures buf.Valid()
    ensures Outcome(delivered, buf.Contents()) == Decode(c, old(buf.Contents()))
    ensures error.Some? <==> Front(c, buf.Contents()).Broken?
    ensures error.Some? ==> error.value == Front(c, buf.Contents()).code
  {
    hide Decode, SoFar, Parse, BytesInt, FitsSigned, IntBytes;
    ghost var input := buf.Contents();
    assert SoFar(c, input, [], input) by { SoFarStarts(c, input); }
    delivered, error := [], None;
    while buf.ReadableBytes() >= c.MinMessageLen() + HeaderLen
      invariant buf.Valid()
      invariant error == None
      invariant SoFar(c, input, delivered, buf.Contents())
      decreases buf.ReadableBytes()
    {
      ghost var now := buf.Contents();
      var len := buf.PeekInt(4);
      if len > MaxMessageLen || len < c.MinMessageLen() {
        error := Some(InvalidLength);
        break;
      } else if buf.ReadableBytes() >= HeaderLen + len {
        var frame := buf.Peek(HeaderLen + len);
        assert frame[HeaderLen..] == now[HeaderLen..HeaderLen + len];
        if !c.raw(frame) {
          SoFarSkips(c, input, delivered, now);
          buf.Retrieve(HeaderLen + len);
          continue;
        }
        match Parse(c, frame[HeaderLen..]) {
          case NoError(message) =>
            SoFarDelivers(c, input, delivered, now);
            delivered := delivered + [message];
            buf.Retrieve(HeaderLen + len);
          case Bad(code) =>
            error := Some(code);
            break;
        }
      } else {
        break;
      }
    }
    SoFarStops(c, input, delivered, buf.Contents());
  }

  lemma SoFarStarts<M>(c: Config<M>, input: seq<byte>)
    ensures SoFar(c, input, [], input)
  {
  }

  // ----- any split of the stream -----

  /** Each chunk is appended to what the last pass left, then decoded. */
  function Feed<M>(c: Config<M>, pending: seq<byte>, chunks: seq<seq<byte>>): Outcome<M>
    decreases chunks
  {
    if chunks == [] then Outcome([], pending)
    else
      var first := Decode(c, pending + chunks[0]);
      var later := Feed(c, first.rest, chunks[1..]);
      Outcome(first.messages + later.messages, later.rest)
  }

  /** A complete or broken frame at the front stays what it is when more input follows. */
  lemma FrontIsStable<M>(c: Config<M>, input: seq<byte>, more: seq<byte>)
    requires !Front(c, input).Incomplete?
    ensures Front(c, input + more) == Front(c, input)
  {
    hide Parse, BytesInt;
    assert (input + more)[..4] == input[..4];
    var len := BytesInt(input[..4]);
    if 0 <= len && HeaderLen + len <= |input| {
      assert (input + more)[..HeaderLen + len] == input[..HeaderLen + len];
      assert (input + more)[HeaderLen..HeaderLen + len] == input[HeaderLen..HeaderLen + len];
    }
  }

  /** Decoding in two steps delivers what decoding at once delivers. */
  lemma {:induction false} DecodeSplits<M>(c: Config<M>, input: seq<byte>, more: seq<byte>)
    ensures var first := Decode(c, input);
      var second := Decode(c, first.rest + more);
      Decode(c, input + more) == Outcome(first.messages + second.messages, second.rest)
    decreases |input|
  {
    hide Front;
    var h := Front(c, input);
    if !h.Incomplete? {
      FrontIsStable(c, input, more);
    }
    if h.Skipped? || h.Delivered? {
      FrontLength(c, input);
      DecodeSplits(c, input[h.frameLen..], more);
      assert (input + more)[h.frameLen..] == input[h.frameLen..] + more;
    }
    if h.Delivered? {
      var first := Decode(c, input[h.frameLen..]);
      var second := Decode(c, first.rest + more);
      assert [h.message] + (first.messages + second.messages) == ([h.message] + first.messages) + second.messages;
    }
    if h.Broken? {
      assert Decode(c, input) == Outcome([], input);
    }
  }

  lemma FrontLength<M>(c: Config<M>, input: seq<byte>)
    ensures var h := Front(c, input); h.Skipped? || h.Delivered? ==> 0 < h.frameLen <= |input|
  {
  }

  /** What is left after a pass is left again by the next pass over it. */
  lemma {:induction false} RestIsStuck<M>(c: Config<M>, input: seq<byte>)
    ensures Decode(c, Decode(c, input).rest) == Outcome([], Decode(c, input).rest)
    decreases |input|
  {
    hide Front;
    var h := Front(c, input);
    if h.Skipped? || h.Delivered? {
      FrontLength(c, input);
      RestIsStuck(c, input[h.frameLen..]);
    }
  }

  /** Messages and leftover depend only on the concatenation of the chunks. */
  lemma {:induction false} SplitDoesNotMatter<M>(c: Config<M>, pending: seq<byte>, chunks: seq<seq<byte>>)
    requires Decode(c, pending) == Outcome([], pending)
    ensures Feed(c, pending, chunks) == Decode(c, pending + Concat(chunks))
    decreases chunks
  {
    if chunks == [] {
      assert pending + Concat(chunks) == pending;
    } else {
      var first := Decode(c, pending + chunks[0]);
      RestIsStuck(c, pending + chunks[0]);
      SplitDoesNotMatter(c, first.rest, chunks[1..]);
      DecodeSplits(c, pending + chunks[0], Concat(chunks[1..]));
      assert pending + Concat(chunks) == (pending + chunks[0]) + Concat(chunks[1..]);
    }
  }

  lemma NothingIsIncomplete<M>(c: Config<M>)
    ensures Front(c, []) == Incomplete
  {
  }

  /** The stream starts with an empty buffer. */
  lemma StreamDependsOnBytesOnly<M>(c: Config<M>, chunks: seq<seq<byte>>, others: seq<seq<byte>>)
    requires Concat(chunks) == Concat(others)
    ensures Feed(c, [], chunks) == Feed(c, [], others) == Decode(c, Concat(chunks))
  {
    NothingIsIncomplete(c);
    SplitDoesNotMatter(c, [], chunks);
    SplitDoesNotMatter(c, [], others);
    assert [] + Concat(chunks) == Concat(chunks);
  }

  // ----- round trip -----

  function EncodeAll<M>(c: Config<M>, ms: seq<M>): seq<byte>
    requires forall m | m in ms :: Encodable(c, m)
  {
    if ms == [] then [] else Encode(c, ms[0]) + EncodeAll(c, ms[1..])
  }

  lemma EncodeParts<M>(c: Config<M>, m: M)
    requires Encodable(c, m)
    ensures var f := Encode(c, m);
      && BytesInt(f[..4]) == BodyLen(c, m)
      && f[HeaderLen..|f| - ChecksumLen] == Body(c, m)
      && BytesInt(f[|f| - ChecksumLen..]) == Checksum(Body(c, m))
  {
    hide Checksum, FitsSigned, IntBytes, BytesInt;
    var f := Encode(c, m);
    IntBytesRoundTrip(BodyLen(c, m), 4);
    IntBytesRoundTrip(Checksum(Body(c, m)), 4);
    assert f[..4] == IntBytes(BodyLen(c, m), 4);
    assert f[|f| - ChecksumLen..] == IntBytes(Checksum(Body(c, m)), 4);
  }

  lemma ParseOfEncode<M(!new)>(c: Config<M>, m: M)
    requires Inverse(c) && Encodable(c, m)
    ensures Parse(c, Encode(c, m)[HeaderLen..]) == NoError(m)
  {
    hide Checksum, FitsSigned, IntBytes, BytesInt, Encode;
    var f := Encode(c, m);
    EncodeParts(c, m);
    var frame := f[HeaderLen..];
    assert frame[..|frame| - ChecksumLen] == Body(c, m);
    assert frame[|frame| - ChecksumLen..] == f[|f| - ChecksumLen..];
    assert frame[..|c.tag|] == Body(c, m)[..|c.tag|] == c.tag;
    assert frame[|c.tag|..|frame| - ChecksumLen] == Body(c, m)[|c.tag|..] == c.serialize(m);
  }

  /** A frame at the front is delivered when its length is allowed, and refused when it is not. */
  lemma FrontOfEncode<M(!new)>(c: Config<M>, m: M, more: seq<byte>)
    requires Inverse(c) && Encodable(c, m) && c.raw(Encode(c, m))
    ensures Front(c, Encode(c, m) + more) ==
      if BodyLen(c, m) <= MaxMessageLen then Delivered(HeaderLen + BodyLen(c, m), m) else Broken(InvalidLength)
  {
    hide Checksum, FitsSigned, IntBytes, BytesInt, Encode, Parse;
    var f := Encode(c, m);
    EncodeParts(c, m);
    ParseOfEncode(c, m);
    var input := f + more;
    assert input[..4] == f[..4];
    assert input[..|f|] == f;
    assert input[HeaderLen..|f|] == f[HeaderLen..];
  }

  /** How many messages come before the first one too long for the receiver. */
  function ShortPrefix<M>(c: Config<M>, ms: seq<M>): (n: nat)
    ensures n <= |ms|
    ensures n == |ms| <==> forall m | m in ms :: BodyLen(c, m) <= MaxMessageLen
  {
    if ms == [] || BodyLen(c, ms[0]) > MaxMessageLen then 0
    else
      var n := ShortPrefix(c, ms[1..]);
      assert forall m | m in ms :: m == ms[0] || m in ms[1..];
      1 + n
  }

  /** Concatenated frames decode to their messages in order, up to the first that is too long. */
  lemma {:induction false} DecodeOfEncodeAll<M(!new)>(c: Config<M>, ms: seq<M>)
    requires Inverse(c)
    requires forall m | m in ms :: Encodable(c, m) && c.raw(Encode(c, m))
    ensures var n := ShortPrefix(c, ms);
      Decode(c, EncodeAll(c, ms)) == Outcome(ms[..n], EncodeAll(c, ms[n..]))
    decreases |ms|
  {
    hide Front, Encode, Inverse, Encodable, BodyLen;
    if ms == [] {
      NothingIsIncomplete(c);
    } else {
      var f, tail := Encode(c, ms[0]), EncodeAll(c, ms[1..]);
      FrontOfEncode(c, ms[0], tail);
      if BodyLen(c, ms[0]) <= MaxMessageLen {
        assert (f + tail)[|f|..] == tail;
        DecodeOfEncodeAll(c, ms[1..]);
        var n := ShortPrefix(c, ms[1..]);
        assert ms[..n + 1] == [ms[0]] + ms[1..][..n];
        assert ms[n + 1..] == ms[1..][n..];
      }
    }
  }

  /** Sent messages arrive whole and in order, however the stream is cut, exactly when none is too long. */
  lemma RoundTripExactly<M(!new)>(c: Config<M>, ms: seq<M>, chunks: seq<seq<byte>>)
    requires Inverse(c)
    requires forall m | m in ms :: Encodable(c, m) && c.raw(Encode(c, m))
    requires Concat(chunks) == EncodeAll(c, ms)
    ensures Feed(c, [], chunks) == Outcome(ms, []) <==> forall m | m in ms :: BodyLen(c, m) <= MaxMessageLen
  {
    StreamDependsOnBytesOnly(c, chunks, chunks);
    DecodeOfEncodeAll(c, ms);
    var n := ShortPrefix(c, ms);
    if n == |ms| {
      assert ms[..n] == ms && ms[n..] == [];
    } else {
      assert |Encode(c, ms[n])| > 0;
      assert ms[n..][0] == ms[n];
    }
  }

  // ----- damaged frames -----

  lemma ChecksumTail(frame: seq<byte>, other: seq<byte>)
    requires |frame| == |other| >= ChecksumLen
    requires frame[..|frame| - ChecksumLen] == other[..|frame| - ChecksumLen]
    requires ValidateChecksum(frame) && ValidateChecksum(other)
    ensures frame == other
  {
    hide Checksum;
    var n := |frame| - ChecksumLen;
    BytesIntInjective(frame[n..], other[n..]);
    assert frame == frame[..n] + frame[n..];
    assert other == other[..n] + other[n..];
  }

  lemma ChecksumBody(frame: seq<byte>, other: seq<byte>)
    requires |frame| == |other| >= ChecksumLen
    requires frame[|frame| - ChecksumLen..] == other[|frame| - ChecksumLen..]
    requires ValidateChecksum(frame) && ValidateChecksum(other)
    ensures Adler32(frame[..|frame| - ChecksumLen]) == Adler32(other[..|frame| - ChecksumLen])
  {
    var n := |frame| - ChecksumLen;
    ChecksumInjective(frame[..n], other[..n]);
  }

  /** A valid frame with any one byte of tag, payload or checksum changed is not valid. */
  lemma ByteChangeRejected(frame: seq<byte>, i: nat, y: byte)
    requires |frame| >= ChecksumLen && ValidateChecksum(frame)
    requires i < |frame| && y != frame[i]
    ensures !ValidateChecksum(frame[i := y])
  {
    hide ValidateChecksum, Adler32;
    var other := frame[i := y];
    var n := |frame| - ChecksumLen;
    if ValidateChecksum(other) {
      if i >= n {
        assert frame[..n] == other[..n];
        ChecksumTail(frame, other);
      } else {
        assert frame[n..] == other[n..];
        ChecksumBody(frame, other);
        var pre, post := frame[..i], frame[i + 1..n];
        assert frame[..n] == pre + [frame[i]] + post;
        assert other[..n] == pre + [y] + post;
        OneByteChangeDetected(pre, frame[i], y, post);
      }
    }
  }

  /** A valid frame with two different neighbouring bytes of tag or payload swapped is not valid. */
  lemma SwapRejected(frame: seq<byte>, i: nat)
    requires |frame| >= ChecksumLen && ValidateChecksum(frame)
    requires i + 1 < |frame| - ChecksumLen && frame[i] != frame[i + 1]
    ensures !ValidateChecksum(frame[i := frame[i + 1]][i + 1 := frame[i]])
  {
    hide ValidateChecksum, Adler32;
    var other := frame[i := frame[i + 1]][i + 1 := frame[i]];
    var n := |frame| - ChecksumLen;
    if ValidateChecksum(other) {
      assert frame[n..] == other[n..];
      ChecksumBody(frame, other);
      var pre, post := frame[..i], frame[i + 2..n];
      assert frame[..n] == pre + [frame[i], frame[i + 1]] + post;
      assert other[..n] == pre + [frame[i + 1], frame[i]] + post;
      SwapDetected(pre, frame[i], frame[i + 1], post);
    }
  }

  /** Once a broken frame is at the front nothing that arrives later is delivered. */
  lemma {:induction false} BrokenFrontBlocks<M>(c: Config<M>, pending: seq<byte>, chunks: seq<seq<byte>>)
    requires Front(c, pending).Broken?
    ensures Feed(c, pending, chunks) == Outcome([], pending + Concat(chunks))
    decreases chunks
  {
    hide Front;
    if chunks == [] {
      assert pending + Concat(chunks) == pending;
    } else {
      FrontIsStable(c, pending, chunks[0]);
      BrokenFrontBlocks(c, pending + chunks[0], chunks[1..]);
      assert pending + Concat(chunks) == pending + chunks[0] + Concat(chunks[1..]);
    }
  }

  lemma BadChecksumFront<M>(c: Config<M>, g: seq<byte>)
    requires |g| >= HeaderLen + c.MinMessageLen() && BytesInt(g[..4]) == |g| - HeaderLen <= MaxMessageLen
    requires c.raw(g) && !ValidateChecksum(g[HeaderLen..])
    ensures Front(c, g) == Broken(CheckSumError)
  {
    hide ValidateChecksum, BytesInt;
    assert g[..|g|] == g && g[HeaderLen..|g|] == g[HeaderLen..];
  }

  lemma DamagedFront<M(!new)>(c: Config<M>, m: M, i: nat, y: byte)
    requires Inverse(c) && Encodable(c, m) && BodyLen(c, m) <= MaxMessageLen
    requires HeaderLen <= i < |Encode(c, m)| && y != Encode(c, m)[i]
    requires c.raw(Encode(c, m)[i := y])
    ensures Front(c, Encode(c, m)[i := y]) == Broken(CheckSumError)
  {
    hide Checksum, FitsSigned, IntBytes, BytesInt, Encode, ValidateChecksum, Inverse, Front, Encodable;
    var f := Encode(c, m);
    var g := f[i := y];
    assert BytesInt(f[..4]) == BodyLen(c, m) by { EncodeParts(c, m); }
    assert ValidateChecksum(f[HeaderLen..]) by { ParseOfEncode(c, m); }
    ByteChangeRejected(f[HeaderLen..], i - HeaderLen, y);
    assert g[HeaderLen..] == f[HeaderLen..][i - HeaderLen := y];
    assert g[..4] == f[..4];
    BadChecksumFront(c, g);
  }

  /** A sent frame with one byte after the length damaged in transit ends the conversation. */
  lemma DamagedFrameBlocks<M(!new)>(c: Config<M>, m: M, i: nat, y: byte, chunks: seq<seq<byte>>)
    requires Inverse(c) && Encodable(c, m) && BodyLen(c, m) <= MaxMessageLen
    requires HeaderLen <= i < |Encode(c, m)| && y != Encode(c, m)[i]
    requires c.raw(Encode(c, m)[i := y])
    ensures Feed(c, Encode(c, m)[i := y], chunks) == Outcome([], Encode(c, m)[i := y] + Concat(chunks))
  {
    hide Encode, Front, Inverse, Encodable;
    DamagedFront(c, m, i, y);
    BrokenFrontBlocks(c, Encode(c, m)[i := y], chunks);
  }
}
