/** Bytes, and integers in network byte order as two's complement of a given width. */
module Bytes {
  type byte = x: int | 0 <= x < 256

  datatype Option<+T> = None | Some(value: T)

  /** 256 to the n: the number of values n bytes can hold. */
  function Pow256(n: nat): (p: nat)
    ensures p > 0
  {
    if n == 0 then 1 else 256 * Pow256(n - 1)
  }

  /** The n bytes of u, most significant first. */
  function ToNetwork(u: nat, n: nat): (s: seq<byte>)
    ensures |s| == n
  {
    if n == 0 then [] else ToNetwork(u / 256, n - 1) + [u % 256]
  }

  function FromNetwork(s: seq<byte>): nat {
    if s == [] then 0 else FromNetwork(s[..|s| - 1]) * 256 + s[|s| - 1]
  }

  lemma {:induction false} FromNetworkBound(s: seq<byte>)
    ensures FromNetwork(s) < Pow256(|s|)
  {
    if s != [] {
      FromNetworkBound(s[..|s| - 1]);
    }
  }

  lemma {:induction false} NetworkRoundTrip(u: nat, n: nat)
    requires u < Pow256(n)
    ensures FromNetwork(ToNetwork(u, n)) == u
  {
    if n > 0 {
      NetworkRoundTrip(u / 256, n - 1);
      assert ToNetwork(u, n)[..n - 1] == ToNetwork(u / 256, n - 1);
    }
  }

  lemma {:induction false} HostRoundTrip(s: seq<byte>)
    ensures ToNetwork(FromNetwork(s), |s|) == s
  {
    if s != [] {
      HostRoundTrip(s[..|s| - 1]);
    }
  }

  /** A signed integer of n bytes, as the unsigned integer with the same bits. */
  function Unsigned(x: int, n: nat): nat
    requires FitsSigned(x, n)
  {
    if x >= 0 then x else x + Pow256(n)
  }

  function Signed(u: nat, n: nat): int {
    if 2 * u < Pow256(n) then u else u - Pow256(n)
  }

  predicate FitsSigned(x: int, n: nat) {
    0 - Pow256(n) <= 2 * x < Pow256(n)
  }

  /** The bytes an append of a signed integer writes. */
  function IntBytes(x: int, n: nat): (s: seq<byte>)
    requires FitsSigned(x, n)
    ensures |s| == n
  {
    ToNetwork(Unsigned(x, n), n)
  }

  /** The signed integer a peek reads. */
  function BytesInt(s: seq<byte>): int {
    Signed(FromNetwork(s), |s|)
  }

  /** An integer written in network order reads back unchanged. */
  lemma IntBytesRoundTrip(x: int, n: nat)
    requires FitsSigned(x, n)
    ensures BytesInt(IntBytes(x, n)) == x
  {
    NetworkRoundTrip(Unsigned(x, n), n);
  }

  /** Bytes read as an integer write back unchanged. */
  lemma BytesIntRoundTrip(s: seq<byte>)
    ensures FitsSigned(BytesInt(s), |s|)
    ensures IntBytes(BytesInt(s), |s|) == s
  {
    FromNetworkBound(s);
    HostRoundTrip(s);
    assert Unsigned(BytesInt(s), |s|) == FromNetwork(s);
  }

  /** Different bytes read as different integers. */
  lemma BytesIntInjective(s: seq<byte>, t: seq<byte>)
    requires |s| == |t| && BytesInt(s) == BytesInt(t)
    ensures s == t
  {
    BytesIntRoundTrip(s);
    BytesIntRoundTrip(t);
  }

  /** The value of bytes by position: the first of n counts 256 to the n - 1, the last one 1. */
  function Positional(s: seq<byte>): nat {
    if s == [] then 0 else s[0] * Places(|s| - 1) + Positional(s[1..])
  }

  function Places(n: nat): nat {
    if n == 0 then 1 else 256 * Places(n - 1)
  }

  lemma {:induction false} PositionalSnoc(s: seq<byte>, b: byte)
    ensures Positional(s + [b]) == 256 * Positional(s) + b
    decreases |s|
  {
    if s == [] {
      assert [b][1..] == [];
    } else {
      assert (s + [b])[1..] == s[1..] + [b];
      PositionalSnoc(s[1..], b);
      MoveFactor(s[0], Places(|s| - 1));
    }
  }

  lemma MoveFactor(x: nat, y: nat)
    ensures x * (256 * y) == 256 * (x * y)
  {
  }

  lemma {:induction false} FromNetworkIsPositional(s: seq<byte>)
    ensures FromNetwork(s) == Positional(s)
  {
    if s != [] {
      var n := |s| - 1;
      FromNetworkIsPositional(s[..n]);
      PositionalSnoc(s[..n], s[n]);
      assert s[..n] + [s[n]] == s;
    }
  }

  lemma {:induction false} PlacesArePowers(n: nat)
    ensures Places(n) == Pow256(n)
  {
    if n > 0 {
      PlacesArePowers(n - 1);
    }
  }

  /** An integer is written most significant byte first, a negative one as its two's complement. */
  lemma IntBytesAreBigEndian(x: int, n: nat)
    requires FitsSigned(x, n)
    ensures Positional(IntBytes(x, n)) == if x < 0 then x + Places(n) else x
  {
    PlacesArePowers(n);
    NetworkRoundTrip(Unsigned(x, n), n);
    FromNetworkIsPositional(IntBytes(x, n));
  }

  /** Bytes are read most significant first, as a negative integer from the upper half of their range on. */
  lemma BytesIntIsBigEndian(s: seq<byte>)
    ensures BytesInt(s) == if 2 * Positional(s) < Places(|s|) then Positional(s) else Positional(s) - Places(|s|)
  {
    PlacesArePowers(|s|);
    FromNetworkIsPositional(s);
  }

  /** A stream put together from the chunks it arrives in. */
  function Concat(chunks: seq<seq<byte>>): seq<byte> {
    if chunks == [] then [] else chunks[0] + Concat(chunks[1..])
  }
}

/** The growing network buffer: an array, a reader index and a writer index. */
module NetBuffer {
  import opened Bytes

  const CheapPrepend: nat := 8
  const InitialSize: nat := 1024
  const ExtraSize: nat := 65536
  const CR: byte := 13
  const LF: byte := 10

  /** Position of the first CR LF at or after i, or the length when there is none. */
  function FindCRLF(s: seq<byte>, i: nat): (r: nat)
    requires i <= |s|
    ensures i <= r <= |s|
    ensures r < |s| ==> IsCRLF(s, r)
    ensures forall k | i <= k < r :: !IsCRLF(s, k)
    ensures r == |s| ==> forall k | i <= k < |s| :: !IsCRLF(s, k)
    decreases |s| - i
  {
    if i == |s| || IsCRLF(s, i) then i else FindCRLF(s, i + 1)
  }

  predicate IsCRLF(s: seq<byte>, k: nat) {
    k + 1 < |s| && s[k] == CR && s[k + 1] == LF
  }

  /** A line ends before the first byte 13 that a byte 10 follows. */
  lemma LineEndExactly(s: seq<byte>, k: nat)
    requires k < |s|
    ensures FindCRLF(s, 0) == k <==>
      && k + 1 < |s| && s[k] == 13 && s[k + 1] == 10
      && forall i | 0 <= i < k :: !(s[i] == 13 && s[i + 1] == 10)
  {
    if k + 1 < |s| && s[k] == 13 && s[k + 1] == 10 && forall i | 0 <= i < k :: !(s[i] == 13 && s[i + 1] == 10) {
      assert IsCRLF(s, k) && forall i | 0 <= i < k :: !IsCRLF(s, i);
    }
    if FindCRLF(s, 0) == k {
      forall i | 0 <= i < k
        ensures !(s[i] == 13 && s[i + 1] == 10)
      {
        assert !IsCRLF(s, i);
      }
    }
  }

  /** Reading back a stretch whose front has just been written. */
  lemma SliceOfWritten(all: seq<byte>, data: seq<byte>, r: nat, w: nat, after: seq<byte>)
    requires r + |data| <= w <= |all|
    requires after == all[..r] + data + all[r + |data|..]
    ensures after[r..w] == data + all[r + |data|..w]
  {
  }

  class Buffer {
    var buffer: array<byte>
    var readerIndex: nat
    var writerIndex: nat

    ghost predicate Valid()
      reads this
    {
      && readerIndex <= writerIndex <= buffer.Length
      && CheapPrepend <= buffer.Length
    }

    /** The byte queue this buffer stands for. */
    ghost function Contents(): (s: seq<byte>)
      reads this, buffer
      requires Valid()
      ensures |s| == writerIndex - readerIndex
    {
      buffer[readerIndex..writerIndex]
    }

    constructor (initialSize: nat := InitialSize)
      ensures Valid() && fresh(buffer)
      ensures Contents() == []
      ensures WritableBytes() == initialSize && readerIndex == CheapPrepend
    {
      buffer := new byte[CheapPrepend + initialSize](_ => 0);
      readerIndex := CheapPrepend;
      writerIndex := CheapPrepend;
    }

    function ReadableBytes(): nat
      reads this
      requires Valid()
    {
      writerIndex - readerIndex
    }

    function WritableBytes(): nat
      reads this
      requires Valid()
    {
      buffer.Length - writerIndex
    }

    function PrependableBytes(): nat
      reads this
    {
      readerIndex
    }

    method RetrieveAll()
      requires Valid()
      modifies this`readerIndex, this`writerIndex
      ensures Valid() && Contents() == []
      ensures readerIndex == CheapPrepend
    {
      readerIndex := CheapPrepend;
      writerIndex := CheapPrepend;
    }

    method Retrieve(len: nat)
      requires Valid() && len <= ReadableBytes()
      modifies this`readerIndex, this`writerIndex
      ensures Valid()
      ensures Contents() == old(Contents())[len..]
    {
      if len < ReadableBytes() {
        readerIndex := readerIndex + len;
      } else {
        RetrieveAll();
      }
    }

    /** A copy of the first len readable bytes, which stay in the buffer. */
    method Peek(len: nat) returns (data: seq<byte>)
      requires Valid() && len <= ReadableBytes()
      ensures data == Contents()[..len]
    {
      data := buffer[readerIndex..readerIndex + len];
    }

    method RetrieveAsString(len: nat) returns (result: seq<byte>)
      requires Valid() && len <= ReadableBytes()
      modifies this`readerIndex, this`writerIndex
      ensures Valid()
      ensures result + Contents() == old(Contents()) && |result| == len
    {
      result := buffer[readerIndex..readerIndex + len];
      Retrieve(len);
    }

    /** Grow, or slide the readable bytes to the front. */
    method MakeSpace(len: nat)
      requires Valid() && WritableBytes() < len
      modifies this, buffer
      ensures Valid() && (buffer == old(buffer) || fresh(buffer))
      ensures Contents() == old(Contents())
      ensures len <= WritableBytes()
      ensures readerIndex == old(readerIndex) || readerIndex == CheapPrepend
    {
      if WritableBytes() + PrependableBytes() < len + CheapPrepend {
        Resize(writerIndex + len);
      } else {
        assert CheapPrepend < readerIndex;
        Slide();
      }
    }

    /** A larger array with the same bytes in the same places. */
    method Resize(size: nat)
      requires Valid() && buffer.Length <= size
      modifies this`buffer
      ensures Valid() && fresh(buffer) && buffer.Length == size
      ensures Contents() == old(Contents())
    {
      var grown := new byte[size](_ => 0);
      CopyBytes(buffer, 0, buffer.Length, grown, 0);
      assert forall k | 0 <= k < buffer.Length :: grown[k] == buffer[k];
      buffer := grown;
    }

    /** The readable bytes moved down to the prepend area's end. */
    method Slide()
      requires Valid() && CheapPrepend < readerIndex
      modifies this`readerIndex, this`writerIndex, buffer
      ensures Valid() && readerIndex == CheapPrepend
      ensures Contents() == old(Contents())
    {
      var readable := ReadableBytes();
      CopyBytes(buffer, readerIndex, writerIndex, buffer, CheapPrepend);
      readerIndex := CheapPrepend;
      writerIndex := readerIndex + readable;
      assert readable == ReadableBytes();
    }

    /** Forward copy of a[from..to] to b at `at`; the ranges may overlap when moving down in one array. */
    static method CopyBytes(a: array<byte>, from: nat, to: nat, b: array<byte>, at: nat)
      requires from <= to <= a.Length && at + (to - from) <= b.Length
      requires a != b || at <= from
      modifies b
      ensures forall k | 0 <= k < b.Length ::
          b[k] == if at <= k < at + (to - from) then old(a[from + (k - at)]) else old(b[k])
      ensures b[at..at + (to - from)] == old(a[from..to])
    {
      var i := 0;
      while i < to - from
        invariant i <= to - from
        invariant forall k | 0 <= k < b.Length :: b[k] == if at <= k < at + i then old(a[from + (k - at)]) else old(b[k])
      {
        b[at + i] := a[from + i];
        i := i + 1;
      }
    }

    method EnsureWritableBytes(len: nat)
      requires Valid()
      modifies this, buffer
      ensures Valid() && (buffer == old(buffer) || fresh(buffer))
      ensures Contents() == old(Contents())
      ensures len <= WritableBytes()
      ensures len <= old(WritableBytes()) ==> unchanged(this) && unchanged(buffer)
      ensures readerIndex == old(readerIndex) || readerIndex == CheapPrepend
    {
      if WritableBytes() < len {
        MakeSpace(len);
      }
    }

    method HasWritten(len: nat)
      requires Valid() && len <= WritableBytes()
      modifies this`writerIndex
      ensures Valid()
      ensures Contents() == old(Contents()) + buffer[old(writerIndex)..old(writerIndex) + len]
    {
      writerIndex := writerIndex + len;
    }

    method Unwrite(len: nat)
      requires Valid() && len <= ReadableBytes()
      modifies this`writerIndex
      ensures Valid()
      ensures Contents() == old(Contents())[..|old(Contents())| - len]
    {
      ghost var before := Contents();
      writerIndex := writerIndex - len;
      assert Contents() == before[..|before| - len];
    }

    method Append(data: seq<byte>)
      requires Valid()
      modifies this, buffer
      ensures Valid() && (buffer == old(buffer) || fresh(buffer))
      ensures Contents() == old(Contents()) + data
      ensures |data| <= old(WritableBytes()) ==> buffer == old(buffer) && WritableBytes() == old(WritableBytes()) - |data|
      ensures readerIndex == old(readerIndex) || readerIndex == CheapPrepend
    {
      EnsureWritableBytes(|data|);
      ghost var before := Contents();
      WriteSeq(data, writerIndex);
      assert Contents() == before;
      HasWritten(|data|);
    }

    /** Copies data into the array at `at`, which lies in the free space. */
    method WriteSeq(data: seq<byte>, at: nat)
      requires Valid() && at + |data| <= buffer.Length
      modifies buffer
      ensures buffer[..] == old(buffer[..at]) + data + old(buffer[at + |data|..])
    {
      var i := 0;
      while i < |data|
        invariant i <= |data|
        invariant forall k | 0 <= k < buffer.Length :: buffer[k] == if at <= k < at + i then data[k - at] else old(buffer[k])
      {
        buffer[at + i] := data[i];
        i := i + 1;
      }
    }

    method Prepend(data: seq<byte>)
      requires Valid() && |data| <= PrependableBytes()
      modifies this`readerIndex, buffer
      ensures Valid()
      ensures Contents() == data + old(Contents())
    {
      ghost var all := buffer[..];
      readerIndex := readerIndex - |data|;
      WriteSeq(data, readerIndex);
      SliceOfWritten(all, data, readerIndex, writerIndex, buffer[..]);
      assert buffer[readerIndex..writerIndex] == buffer[..][readerIndex..writerIndex];
    }

    /** Replaces the array by one that fits the readable bytes plus a reserve. */
    method Shrink(reserve: nat)
      requires Valid()
      modifies this
      ensures Valid() && fresh(buffer)
      ensures Contents() == old(Contents())
      ensures reserve <= WritableBytes()
    {
      var other := new Buffer();
      other.EnsureWritableBytes(ReadableBytes() + reserve);
      other.Append(buffer[readerIndex..writerIndex]);
      var b, r, w := buffer, readerIndex, writerIndex;
      buffer, readerIndex, writerIndex := other.buffer, other.readerIndex, other.writerIndex;
      other.buffer, other.readerIndex, other.writerIndex := b, r, w;
    }

    /**
     One scatter read. What the kernel delivered goes to the free space first and the rest
     to a scratch area that is appended; None is a failed read.
     */
    method ReadFd(received: Option<seq<byte>>) returns (n: int)
      requires Valid()
      requires received.Some? ==> |received.value| <= Offered(WritableBytes())
      modifies this, buffer
      ensures Valid() && (buffer == old(buffer) || fresh(buffer))
      ensures received.None? ==> n < 0 && Contents() == old(Contents())
      ensures received.Some? ==> n == |received.value| && Contents() == old(Contents()) + received.value
      // what does not fit the free space fits the scratch area, which is offered only when less than its size is free
      ensures n > old(WritableBytes()) ==> old(WritableBytes()) < 65536 && n - old(WritableBytes()) <= 65536
    {
      match received
      case None =>
        return -1;
      case Some(data) =>
        var writable := WritableBytes();
        var inPlace := if |data| <= writable then |data| else writable;
        ghost var before := Contents();
        WriteSeq(data[..inPlace], writerIndex);
        var extrabuf := data[inPlace..];
        n := |data|;
        assert Contents() == before;
        if n <= writable {
          writerIndex := writerIndex + n;
          assert Contents() == before + data;
        } else {
          writerIndex := buffer.Length;
          assert Contents() == before + data[..inPlace];
          Append(extrabuf);
          assert Contents() == before + (data[..inPlace] + extrabuf);
        }
    }

    // ----- integers in network order -----

    method AppendInt(x: int, n: nat)
      requires Valid() && FitsSigned(x, n)
      modifies this, buffer
      ensures Valid() && (buffer == old(buffer) || fresh(buffer))
      ensures Contents() == old(Contents()) + IntBytes(x, n)
      ensures readerIndex == old(readerIndex) || readerIndex == CheapPrepend
    {
      Append(IntBytes(x, n));
    }

    method PeekInt(n: nat) returns (x: int)
      requires Valid() && n <= ReadableBytes()
      ensures FitsSigned(x, n) && IntBytes(x, n) == Contents()[..n]
      ensures x == BytesInt(Contents()[..n])
    {
      ghost var head := Contents()[..n];
      assert buffer[readerIndex..readerIndex + n] == head;
      x := BytesInt(buffer[readerIndex..readerIndex + n]);
      BytesIntRoundTrip(head);
    }

    method ReadInt(n: nat) returns (x: int)
      requires Valid() && n <= ReadableBytes()
      modifies this`readerIndex, this`writerIndex
      ensures Valid() && FitsSigned(x, n)
      ensures IntBytes(x, n) + Contents() == old(Contents())
    {
      x := PeekInt(n);
      Retrieve(n);
    }

    method PrependInt(x: int, n: nat)
      requires Valid() && FitsSigned(x, n) && n <= PrependableBytes()
      modifies this`readerIndex, buffer
      ensures Valid()
      ensures Contents() == IntBytes(x, n) + old(Contents())
    {
      Prepend(IntBytes(x, n));
    }

    /** Offset of the first CR LF among the readable bytes. */
    method SearchCRLF() returns (at: Option<nat>)
      requires Valid()
      ensures at.None? <==> FindCRLF(Contents(), 0) == |Contents()|
      ensures at.Some? ==> at.value == FindCRLF(Contents(), 0)
    {
      ghost var s := Contents();
      var k := 0;
      while k < ReadableBytes()
        invariant k <= |s|
        invariant FindCRLF(s, 0) == FindCRLF(s, k)
      {
        assert buffer[readerIndex + k] == s[k];
        if k + 1 < ReadableBytes() && buffer[readerIndex + k] == CR && buffer[readerIndex + k + 1] == LF {
          assert s[k + 1] == buffer[readerIndex + k + 1];
          assert IsCRLF(s, k);
          return Some(k);
        }
        assert !IsCRLF(s, k);
        k := k + 1;
      }
      return None;
    }
  }

  /** How many bytes one scatter read may deliver. */
  function Offered(writable: nat): nat {
    writable + (if writable < ExtraSize then ExtraSize else 0)
  }
}
