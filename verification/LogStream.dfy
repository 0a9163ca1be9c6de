/** Integers as decimal and hexadecimal text, and quantities in five characters. */
module LogStream {
  import opened CArith

  // ----- numerals -----

  function Digit(d: nat): (c: char)
    requires d < 16
  {
    "0123456789ABCDEF"[d]
  }

  function DigitValue(c: char): int {
    if '0' <= c <= '9' then c as int - '0' as int
    else if 'A' <= c <= 'F' then c as int - 'A' as int + 10
    else -1
  }

  /** The digits of n, most significant first, without leading zeros. */
  function Numeral(n: nat, base: nat): (s: string)
    requires base == 10 || base == 16
    ensures |s| > 0
    decreases n
  {
    if n < base then [Digit(n)] else Numeral(n / base, base) + [Digit(n % base)]
  }

  /** The number a row of digits stands for. */
  function Value(s: string, base: nat): int {
    if s == [] then 0 else Value(s[..|s| - 1], base) * base + DigitValue(s[|s| - 1])
  }

  lemma DigitRoundTrip(d: nat)
    requires d < 16
    ensures DigitValue(Digit(d)) == d
  {
  }

  lemma {:induction false} NumeralReadsBack(n: nat, base: nat)
    requires base == 10 || base == 16
    ensures Value(Numeral(n, base), base) == n
    decreases n
  {
    var s := Numeral(n, base);
    if n < base {
      assert s[..0] == [] && Value(s, base) == 0 * base + DigitValue(Digit(n));
      DigitRoundTrip(n);
    } else {
      NumeralReadsBack(n / base, base);
      assert s[..|s| - 1] == Numeral(n / base, base);
      DigitRoundTrip(n % base);
    }
  }

  function Power(base: nat, k: nat): nat {
    if k == 0 then 1 else base * Power(base, k - 1)
  }

  /** Exactly the numbers below base to the k have at most k digits. */
  lemma {:induction false} NumeralLength(n: nat, base: nat, k: nat)
    requires (base == 10 || base == 16) && k > 0
    ensures n < Power(base, k) <==> |Numeral(n, base)| <= k
    decreases n
  {
    PowerAtLeast(base, k);
    if n >= base && k > 1 {
      NumeralLength(n / base, base, k - 1);
      QuotientBelow(n, base, Power(base, k - 1));
    }
  }

  lemma PowerAtLeast(base: nat, k: nat)
    requires (base == 10 || base == 16) && k > 0
    ensures Power(base, k) >= base
    ensures k == 1 ==> Power(base, k) == base
  {
    if k > 1 {
      PowerAtLeast(base, k - 1);
    }
  }

  lemma QuotientBelow(n: nat, base: nat, q: nat)
    requires base == 10 || base == 16
    ensures n < base * q <==> n / base < q
  {
    if base == 10 {
      assert n < 10 * q <==> n / 10 < q;
    } else {
      assert n < 16 * q <==> n / 16 < q;
    }
  }

  lemma {:induction false} NumeralStartsWithDigit(n: nat, base: nat)
    requires base == 10 || base == 16
    ensures Numeral(n, base)[0] != '-'
    ensures n > 0 ==> Numeral(n, base)[0] != '0'
    decreases n
  {
    if n >= base {
      NumeralStartsWithDigit(n / base, base);
      assert n / base > 0;
    }
  }

  // ----- convert -----

  /** The decimal text of an integer. */
  function Decimal(v: int): (s: string) {
    if v < 0 then "-" + Numeral(-v, 10) else Numeral(v, 10)
  }

  function ReadDecimal(s: string): int {
    if s != [] && s[0] == '-' then -Value(s[1..], 10) else Value(s, 10)
  }

  /** Reading the text gives the number. */
  lemma DecimalReadsBack(v: int)
    ensures ReadDecimal(Decimal(v)) == v
  {
    hide Numeral, Value;
    if v < 0 {
      NumeralReadsBack(-v, 10);
      assert Decimal(v)[1..] == Numeral(-v, 10);
    } else {
      NumeralReadsBack(v, 10);
      NumeralStartsWithDigit(v, 10);
    }
  }

  const TwoTo63 := 0x8000_0000_0000_0000
  const TwoTo64 := 0x1_0000_0000_0000_0000

  /** A 64-bit integer, signed or unsigned, needs at most 20 characters. */
  lemma DecimalLength(v: int)
    requires -TwoTo63 <= v < TwoTo64
    ensures 1 <= |Decimal(v)| <= 20
  {
    hide Numeral;
    TwentyDigits();
    if v < 0 {
      NumeralLength(-v, 10, 19);
    } else {
      NumeralLength(v, 10, 20);
    }
  }

  lemma TwentyDigits()
    ensures Power(10, 19) == 10_000_000_000_000_000_000
    ensures Power(10, 20) == 100_000_000_000_000_000_000
  {
    assert Power(10, 4) == 10_000;
    assert Power(10, 8) == 100_000_000;
    assert Power(10, 12) == 1_000_000_000_000;
    assert Power(10, 16) == 10_000_000_000_000_000;
  }

  lemma SixteenHexDigits(v: nat)
    requires v < TwoTo64
    ensures |Numeral(v, 16)| <= 16
  {
    hide Numeral;
    assert Power(16, 4) == 0x1_0000;
    assert Power(16, 8) == 0x1_0000_0000;
    assert Power(16, 12) == 0x1_0000_0000_0000;
    assert Power(16, 16) == TwoTo64;
    NumeralLength(v, 16, 16);
  }

  /** The table of digits mirrored around its middle zero, indexed by a remainder. */
  const Digits: string := "9876543210123456789"

  function Mirrored(lsd: int): char
    requires -9 <= lsd <= 9
  {
    Digits[lsd + 9]
  }

  const DigitsHex: string := "0123456789ABCDEF"

  function Abs(i: int): nat {
    if i < 0 then -i else i
  }

  /** One truncating division takes the last digit off the absolute value, whatever the sign. */
  lemma MirroredIsDigit(i: int)
    ensures -9 <= TruncMod(i, 10) <= 9
    ensures Mirrored(TruncMod(i, 10)) == Digit(Abs(i) % 10)
    ensures Abs(TruncDiv(i, 10)) == Abs(i) / 10
    ensures TruncDiv(i, 10) == 0 <==> Abs(i) < 10
  {
    MirroredDigits(TruncMod(i, 10));
    assert Abs(TruncMod(i, 10)) == Abs(i) % 10;
  }

  lemma MirroredDigits(d: int)
    requires -9 <= d <= 9
    ensures Mirrored(d) == Digit(Abs(d))
  {
  }

  function Reversed(s: string): (r: string)
    ensures |r| == |s|
    ensures forall k | 0 <= k < |s| :: r[k] == s[|s| - 1 - k]
  {
    seq(|s|, k requires 0 <= k < |s| => s[|s| - 1 - k])
  }

  lemma ReversedTwice(s: string)
    ensures Reversed(Reversed(s)) == s
  {
  }

  lemma ReversedJoin(a: string, b: string)
    ensures Reversed(a + b) == Reversed(b) + Reversed(a)
  {
  }

  /** Reverses buf[from..to] in place by swapping from both ends. */
  method ReverseRange(buf: array<char>, from: nat, to: nat)
    requires from <= to <= buf.Length
    modifies buf
    ensures buf[from..to] == Reversed(old(buf[from..to]))
    ensures forall k | 0 <= k < buf.Length && !(from <= k < to) :: buf[k] == old(buf[k])
  {
    ghost var was := buf[..];
    ghost var part := buf[from..to];
    var i, j := from, to;
    while i + 1 < j
      invariant from <= i <= j <= to && i - from == to - j
      invariant forall k | from <= k < i || j <= k < to :: buf[k] == was[from + to - 1 - k]
      invariant forall k | i <= k < j :: buf[k] == was[k]
      invariant forall k | 0 <= k < buf.Length && !(from <= k < to) :: buf[k] == was[k]
    {
      buf[i], buf[j - 1] := buf[j - 1], buf[i];
      i, j := i + 1, j - 1;
    }
    SliceReversed(was, buf[..], from, to);
    assert part == was[from..to];
    assert buf[..][from..to] == buf[from..to];
  }

  lemma SliceReversed(was: string, now: string, from: nat, to: nat)
    requires from <= to <= |was| == |now|
    requires forall k | from <= k < to :: now[k] == was[from + to - 1 - k]
    ensures now[from..to] == Reversed(was[from..to])
  {
  }

  lemma LastDigit(n: nat, base: nat)
    requires base == 10 || base == 16
    ensures Numeral(n, base) == (if n < base then [] else Numeral(n / base, base)) + [Digit(n % base)]
  {
  }

  /** Moving the last digit of n to the written part keeps the text that the two stand for. */
  lemma DigitMoves(n: nat, base: nat, written: string)
    requires base == 10 || base == 16
    ensures Numeral(n, base) + Reversed(written)
      == (if n < base then [] else Numeral(n / base, base)) + Reversed(written + [Digit(n % base)])
  {
    hide Digit, Reversed, Numeral;
    LastDigit(n, base);
    var last := [Digit(n % base)];
    ReversedJoin(written, last);
    assert Reversed(last) == last;
    var front := if n < base then [] else Numeral(n / base, base);
    assert (front + last) + Reversed(written) == front + (last + Reversed(written));
  }

  /** The loop of convert: one digit for each truncating division, least significant first. */
  method WriteDigits(buf: array<char>, at: nat, value: int) returns (p: nat)
    requires at + |Numeral(Abs(value), 10)| <= buf.Length
    modifies buf
    ensures p == at + |Numeral(Abs(value), 10)|
    ensures buf[at..p] == Reversed(Numeral(Abs(value), 10))
    ensures forall k | 0 <= k < at || p <= k < buf.Length :: buf[k] == old(buf[k])
  {
    hide Numeral, Reversed, Digit, Mirrored;
    ghost var full := Numeral(Abs(value), 10);
    ghost var written := "";
    var i := value;
    p := at;
    var more := true;
    assert Reversed(written) == [];
    while more
      invariant at <= p <= buf.Length && |written| == p - at
      invariant forall k | 0 <= k < |written| :: buf[at + k] == written[k]
      invariant full == (if more then Numeral(Abs(i), 10) else []) + Reversed(written)
      invariant forall k | 0 <= k < at || p <= k < buf.Length :: buf[k] == old(buf[k])
      decreases more, Abs(i)
    {
      MirroredIsDigit(i);
      DigitMoves(Abs(i), 10, written);
      written := written + [Digit(Abs(i) % 10)];
      buf[p] := Mirrored(TruncMod(i, 10));
      i := TruncDiv(i, 10);
      p := p + 1;
      more := i != 0;
    }
    ReversedTwice(written);
    assert buf[at..p] == written;
  }

  /** The digits, then the sign. */
  method WriteBackwards(buf: array<char>, at: nat, value: int) returns (p: nat)
    requires at + |Decimal(value)| <= buf.Length
    modifies buf
    ensures p == at + |Decimal(value)|
    ensures buf[at..p] == Reversed(Decimal(value))
    ensures forall k | 0 <= k < at || p <= k < buf.Length :: buf[k] == old(buf[k])
  {
    DecimalReversed(value);
    hide Numeral, Reversed, Decimal;
    p := WriteDigits(buf, at, value);
    if value < 0 {
      ghost var digits := buf[at..p];
      buf[p] := '-';
      p := p + 1;
      assert buf[at..p] == digits + "-";
    }
  }

  /** Writes the text of value at `at` with a terminator: digits backwards, sign, then one reversal. */
  method Convert(buf: array<char>, at: nat, value: int) returns (len: nat)
    requires -TwoTo63 <= value < TwoTo64
    requires at + 21 <= buf.Length
    modifies buf
    ensures len == |Decimal(value)| && at + len < buf.Length
    ensures buf[at..at + len] == Decimal(value) && buf[at + len] == '\0'
    ensures forall k | 0 <= k < at || at + len < k < buf.Length :: buf[k] == old(buf[k])
  {
    hide Numeral, Reversed, Decimal;
    DecimalLength(value);
    var p := WriteBackwards(buf, at, value);
    ghost var text := buf[at..p];
    buf[p] := '\0';
    assert buf[at..p] == text;
    ReverseRange(buf, at, p);
    ReversedTwice(Decimal(value));
    len := p - at;
  }

  lemma DecimalReversed(v: int)
    ensures Reversed(Decimal(v)) == Reversed(Numeral(Abs(v), 10)) + (if v < 0 then "-" else "")
  {
    hide Numeral, Reversed;
    if v < 0 {
      ReversedJoin("-", Numeral(-v, 10));
      assert Reversed("-") == "-";
    }
  }

  /** The loop of convertHex. */
  method WriteHexDigits(buf: array<char>, at: nat, value: nat) returns (p: nat)
    requires at + |Numeral(value, 16)| <= buf.Length
    modifies buf
    ensures p == at + |Numeral(value, 16)|
    ensures buf[at..p] == Reversed(Numeral(value, 16))
    ensures forall k | 0 <= k < at || p <= k < buf.Length :: buf[k] == old(buf[k])
  {
    hide Numeral, Reversed, Digit;
    ghost var full := Numeral(value, 16);
    ghost var written := "";
    var i := value;
    p := at;
    var more := true;
    assert Reversed(written) == [];
    while more
      invariant at <= p <= buf.Length && |written| == p - at
      invariant forall k | 0 <= k < |written| :: buf[at + k] == written[k]
      invariant full == (if more then Numeral(i, 16) else []) + Reversed(written)
      invariant forall k | 0 <= k < at || p <= k < buf.Length :: buf[k] == old(buf[k])
      decreases more, i
    {
      HexDigit(i % 16);
      DigitMoves(i, 16, written);
      written := written + [Digit(i % 16)];
      buf[p] := DigitsHex[i % 16];
      i := i / 16;
      p := p + 1;
      more := i != 0;
    }
    ReversedTwice(written);
    assert buf[at..p] == written;
  }

  lemma HexDigit(d: nat)
    requires d < 16
    ensures DigitsHex[d] == Digit(d)
  {
  }

  /** The same for an unsigned number in hexadecimal. */
  method ConvertHex(buf: array<char>, at: nat, value: nat) returns (len: nat)
    requires value < TwoTo64
    requires at + 17 <= buf.Length
    modifies buf
    ensures len == |Numeral(value, 16)| && at + len < buf.Length
    ensures buf[at..at + len] == Numeral(value, 16) && buf[at + len] == '\0'
    ensures forall k | 0 <= k < at || at + len < k < buf.Length :: buf[k] == old(buf[k])
  {
    hide Numeral, Reversed;
    SixteenHexDigits(value);
    var p := WriteHexDigits(buf, at, value);
    ghost var text := buf[at..p];
    buf[p] := '\0';
    assert buf[at..p] == text;
    ReverseRange(buf, at, p);
    ReversedTwice(Numeral(value, 16));
    len := p - at;
  }

  const MaxNumericSize := 48

  /** The buffer of one log line. */
  class FixedBuffer {
    const data: array<char>
    var cur: nat

    ghost predicate Valid()
      reads this
    {
      cur <= data.Length
    }

    function Text(): string
      requires Valid()
      reads this, data
    {
      data[..cur]
    }

    constructor (size: nat)
      ensures Valid() && Text() == "" && data.Length == size && fresh(data)
    {
      data := new char[size];
      cur := 0;
    }

    function Avail(): nat
      requires Valid()
      reads this
    {
      data.Length - cur
    }

    /** Appends the whole text or nothing. */
    method Append(text: string)
      requires Valid()
      modifies this, data
      ensures Valid()
      ensures Text() == old(Text()) + (if old(Avail()) > |text| then text else "")
    {
      if Avail() > |text| {
        forall k | 0 <= k < |text| {
          data[cur + k] := text[k];
        }
        cur := cur + |text|;
      }
    }

    method FormatInteger(v: int)
      requires Valid() && -TwoTo63 <= v < TwoTo64
      modifies this, data
      ensures Valid()
      ensures Text() == old(Text()) + (if old(Avail()) >= 48 then Decimal(v) else "")
    {
      hide Decimal;
      if Avail() >= MaxNumericSize {
        var len := Convert(data, cur, v);
        cur := cur + len;
      }
    }

    method FormatPointer(v: nat)
      requires Valid() && v < TwoTo64
      modifies this, data
      ensures Valid()
      ensures Text() == old(Text()) + (if old(Avail()) >= 48 then "0x" + Numeral(v, 16) else "")
    {
      hide Numeral;
      if Avail() >= MaxNumericSize {
        data[cur], data[cur + 1] := '0', 'x';
        var len := ConvertHex(data, cur + 2, v);
        cur := cur + len + 2;
      }
    }
  }

  // ----- formatSI -----

  /** How a quantity is shown: a number of units, with so many decimal places, in multiples of scale. */
  datatype Style = Style(scale: nat, places: nat, suffix: char)

  /** The branches of formatSI from 1000 on. */
  function StyleOf(s: int): (y: Style)
    requires s >= 1000
  {
    if s < 9995 then Style(1_000, 2, 'k')
    else if s < 99950 then Style(1_000, 1, 'k')
    else if s < 999500 then Style(1_000, 0, 'k')
    else if s < 9995000 then Style(1_000_000, 2, 'M')
    else if s < 99950000 then Style(1_000_000, 1, 'M')
    else if s < 999500000 then Style(1_000_000, 0, 'M')
    else if s < 9995000000 then Style(1_000_000_000, 2, 'G')
    else if s < 99950000000 then Style(1_000_000_000, 1, 'G')
    else if s < 999500000000 then Style(1_000_000_000, 0, 'G')
    else if s < 9995000000000 then Style(1_000_000_000_000, 2, 'T')
    else if s < 99950000000000 then Style(1_000_000_000_000, 1, 'T')
    else if s < 999500000000000 then Style(1_000_000_000_000, 0, 'T')
    else if s < 9995000000000000 then Style(1_000_000_000_000_000, 2, 'P')
    else if s < 99950000000000000 then Style(1_000_000_000_000_000, 1, 'P')
    else if s < 999500000000000000 then Style(1_000_000_000_000_000, 0, 'P')
    else Style(1_000_000_000_000_000_000, 2, 'E')
  }

  /** The weight of the last printed digit. */
  function Unit(s: int): (u: nat)
    requires s >= 1000
    ensures u > 0
  {
    var y := StyleOf(s);
    if y.places == 2 then y.scale / 100 else if y.places == 1 then y.scale / 10 else y.scale
  }

  /** n / d to the nearest integer; up decides a tie. */
  function Round(n: nat, d: nat, up: bool): (q: nat)
    requires d > 0
  {
    var q, r := n / d, n % d;
    if 2 * r > d || (2 * r == d && up) then q + 1 else q
  }

  /** q with its last digits, as many as places, behind a point. */
  function Fixed(q: nat, places: nat): string {
    if places == 0 then Numeral(q, 10)
    else if places == 1 then Numeral(q / 10, 10) + "." + [Digit(q % 10)]
    else Numeral(q / 100, 10) + "." + [Digit(q / 10 % 10), Digit(q % 10)]
  }

  function FormatSI(s: int, up: bool): string {
    if s < 1000 then Decimal(s)
    else
      var y := StyleOf(s);
      Fixed(Round(s, Unit(s), up), y.places) + [y.suffix]
  }

  // ----- reading such a text -----

  function Scale(suffix: char): nat {
    if suffix == 'k' then 1_000
    else if suffix == 'M' then 1_000_000
    else if suffix == 'G' then 1_000_000_000
    else if suffix == 'T' then 1_000_000_000_000
    else if suffix == 'P' then 1_000_000_000_000_000
    else if suffix == 'E' then 1_000_000_000_000_000_000
    else 1
  }

  /** The digits before and after the point, and how many come after it. */
  function Mantissa(s: string): (string, nat) {
    if |s| >= 3 && s[|s| - 3] == '.' then (s[..|s| - 3] + s[|s| - 2..], 2)
    else if |s| >= 2 && s[|s| - 2] == '.' then (s[..|s| - 2] + s[|s| - 1..], 1)
    else (s, 0)
  }

  /** The quantity a reader takes from a text of FormatSI. */
  function ReadSI(s: string): int {
    if s == [] || Scale(s[|s| - 1]) == 1 then ReadDecimal(s)
    else
      var (digits, places) := Mantissa(s[..|s| - 1]);
      Value(digits, 10) * (Scale(s[|s| - 1]) / Power(10, places))
  }

  /** Three digits and a point, in units of the last digit. */
  lemma ThreeDigits(q: nat)
    requires 100 <= q <= 999
    ensures Numeral(q, 10) == [Digit(q / 100), Digit(q / 10 % 10), Digit(q % 10)]
    ensures Numeral(q / 10, 10) == [Digit(q / 100), Digit(q / 10 % 10)]
    ensures Numeral(q / 100, 10) == [Digit(q / 100)]
    ensures Value([Digit(q / 100), Digit(q / 10 % 10), Digit(q % 10)], 10) == q
  {
    hide Digit;
    var a, b, c := q / 100, q / 10 % 10, q % 10;
    assert q / 10 / 10 == a && q / 10 >= 10;
    assert Numeral(a, 10) == [Digit(a)];
    assert Numeral(q / 10, 10) == Numeral(a, 10) + [Digit(b)];
    assert Numeral(q, 10) == Numeral(q / 10, 10) + [Digit(c)];
    NumeralReadsBack(q, 10);
  }

  lemma FixedReadsBack(q: nat, places: nat, suffix: char)
    requires 100 <= q <= 999 && places <= 2 && Scale(suffix) > 1
    ensures var text := Fixed(q, places) + [suffix];
      |text| <= 5 && ReadSI(text) == q * (Scale(suffix) / Power(10, places))
  {
    hide Numeral, Value, Scale, Digit, Power;
    ThreeDigits(q);
    NoPoint(q % 10);
    NoPoint(q / 10 % 10);
    var text, all := Fixed(q, places), [Digit(q / 100), Digit(q / 10 % 10), Digit(q % 10)];
    assert (text + [suffix])[..|text|] == text;
    if places == 0 {
      assert Mantissa(text) == (all, 0) by {
        NoPoint(q / 100);
      }
    } else if places == 1 {
      assert text == [Digit(q / 100), Digit(q / 10 % 10), '.', Digit(q % 10)];
      assert text[..2] + text[3..] == all;
      assert Mantissa(text) == (all, 1);
    } else {
      assert text == [Digit(q / 100), '.', Digit(q / 10 % 10), Digit(q % 10)];
      assert text[..1] + text[2..] == all;
      assert Mantissa(text) == (all, 2);
    }
  }

  lemma NoPoint(d: nat)
    requires d < 10
    ensures Digit(d) != '.'
  {
  }

  lemma RoundIsNearest(n: nat, d: nat, up: bool)
    requires d > 0
    ensures -(d as int) <= 2 * (Round(n, d, up) * d - n) <= d
    ensures up ==> 2 * (Round(n, d, up) * d - n) > -(d as int)
    ensures !up ==> 2 * (Round(n, d, up) * d - n) < d
  {
    var q, r := n / d, n % d;
    assert n == q * d + r;
    assert (q + 1) * d == q * d + d;
  }

  /** The branches keep the quantity between 99.95 and 999.5 units. */
  lemma UnitFits(s: int)
    requires 1000 <= s < TwoTo63
    ensures 1999 * Unit(s) <= 20 * s && 2 * s < 1999 * Unit(s)
  {
  }

  lemma StyleReadsBack(s: int)
    requires s >= 1000
    ensures var y := StyleOf(s);
      y.places <= 2 && Scale(y.suffix) > 1 && Scale(y.suffix) / Power(10, y.places) == Unit(s)
  {
    var y := StyleOf(s);
    assert y.places <= 2 && Scale(y.suffix) == y.scale > 1;
    assert Power(10, 0) == 1 && Power(10, 1) == 10 && Power(10, 2) == 100;
  }

  /** So exactly three digits are printed. */
  lemma ThreeDigitsFit(n: nat, d: nat, up: bool)
    requires d > 0 && 1999 * d <= 20 * n && 2 * n < 1999 * d
    ensures 100 <= Round(n, d, up) <= 999
  {
    hide Round;
    var q := Round(n, d, up);
    RoundIsNearest(n, d, up);
    if q <= 99 {
      MulMonotone(q, 99, d);
    } else if q >= 1000 {
      MulMonotone(1000, q, d);
    }
  }

  /** What is displayed, in the quantity's own unit. */
  lemma Displayed(s: int, up: bool)
    requires 1000 <= s < TwoTo63
    ensures ReadSI(FormatSI(s, up)) == Round(s, Unit(s), up) * Unit(s)
    ensures |FormatSI(s, up)| <= 5
    ensures 100 * Unit(s) <= ReadSI(FormatSI(s, up)) <= 999 * Unit(s)
  {
    hide StyleOf, Unit, Fixed, ReadSI, Scale, Power, Round;
    UnitFits(s);
    StyleReadsBack(s);
    ThreeDigitsFit(s, Unit(s), up);
    var q, u := Round(s, Unit(s), up), Unit(s);
    FixedReadsBack(q, StyleOf(s).places, StyleOf(s).suffix);
    MulMonotone(100, q, u);
    MulMonotone(q, 999, u);
  }

  /** Below 1000 the text is the number itself. */
  lemma SmallReadsBack(s: int, up: bool)
    requires -TwoTo63 <= s < 1000
    ensures ReadSI(FormatSI(s, up)) == s
  {
    hide Decimal, ReadDecimal;
    DecimalReadsBack(s);
    LastIsDigit(s);
  }

  lemma LastIsDigit(s: int)
    ensures Decimal(s) != [] && Scale(Decimal(s)[|Decimal(s)| - 1]) == 1
  {
    var n := Abs(s);
    var t := Numeral(n, 10);
    assert t[|t| - 1] == Digit(n % 10);
    assert Decimal(s)[|Decimal(s)| - 1] == t[|t| - 1];
    assert forall d: nat | d < 10 :: Scale(Digit(d)) == 1;
  }

  /** The text has at most five characters exactly for quantities above -10000. */
  lemma FiveCharactersExactly(s: int, up: bool)
    requires -TwoTo63 <= s < TwoTo63
    ensures |FormatSI(s, up)| <= 5 <==> s > -10000
  {
    hide StyleOf, Unit, Fixed, Numeral;
    if s >= 1000 {
      Displayed(s, up);
    } else {
      assert Power(10, 4) == 10_000 && Power(10, 3) == 1_000;
      if s < 0 {
        NumeralLength(-s, 10, 4);
      } else {
        NumeralLength(s, 10, 3);
      }
    }
  }

  /** Rounding to units is off by at most one part in 201, from 99.95 units on. */
  lemma RoundIsClose(n: nat, d: nat, up: bool)
    requires d > 0 && 1999 * d <= 20 * n && 2 * n < 1999 * d
    ensures 201 * Abs(Round(n, d, up) * d - n) <= n
  {
    hide Round;
    var q := Round(n, d, up);
    RoundIsNearest(n, d, up);
    ThreeDigitsFit(n, d, up);
    MulMonotone(100, q, d);
    if 2 * n < 201 * d && q > 100 {
      MulMonotone(101, q, d);
    }
  }

  /**
   The displayed quantity is off by at most one part in 201, which is less than half a percent,
   and not at all below 1000.
   */
  lemma DisplayedIsClose(s: int, up: bool)
    requires 0 <= s < TwoTo63
    ensures 201 * Abs(ReadSI(FormatSI(s, up)) - s) <= s
    ensures s < 1000 ==> ReadSI(FormatSI(s, up)) == s
  {
    hide FormatSI, StyleOf, Unit, ReadSI, Round;
    if s < 1000 {
      SmallReadsBack(s, up);
    } else {
      Displayed(s, up);
      UnitFits(s);
      RoundIsClose(s, Unit(s), up);
    }
  }

  /** A larger quantity is never displayed as a smaller one, however ties are rounded. */
  lemma DisplayedGrows(s: int, t: int, up: bool, upToo: bool)
    requires 0 <= s < t < TwoTo63
    ensures ReadSI(FormatSI(s, up)) <= ReadSI(FormatSI(t, upToo))
  {
    hide FormatSI, StyleOf, Unit, ReadSI, Round;
    if t < 1000 {
      SmallReadsBack(s, up);
      SmallReadsBack(t, upToo);
    } else if s < 1000 {
      SmallReadsBack(s, up);
      Displayed(t, upToo);
      UnitFits(t);
      UnitAtLeast10(t);
    } else {
      Displayed(s, up);
      Displayed(t, upToo);
      if Unit(s) == Unit(t) {
        RoundGrows(s, t, Unit(s), up, upToo);
        MulMonotone(Round(s, Unit(s), up), Round(t, Unit(t), upToo), Unit(s));
      } else {
        UnitsGrow(s, t);
      }
    }
  }

  lemma UnitAtLeast10(s: int)
    requires s >= 1000
    ensures Unit(s) >= 10
  {
  }

  lemma UnitsGrow(s: int, t: int)
    requires 1000 <= s < t
    ensures Unit(s) == Unit(t) || 10 * Unit(s) <= Unit(t)
  {
  }

  lemma RoundGrows(n: nat, m: nat, d: nat, up: bool, upToo: bool)
    requires n < m && d > 0
    ensures Round(n, d, up) <= Round(m, d, upToo)
  {
    var q, r, x, y := n / d, n % d, m / d, m % d;
    assert n == q * d + r && m == x * d + y;
    if q > x {
      MulMonotone(x + 1, q, d);
    } else if q + 1 < x {
    } else if q + 1 == x {
    } else {
      assert r < y;
    }
  }

  lemma MulMonotone(a: int, b: int, d: nat)
    requires a <= b
    ensures a * d <= b * d
  {
  }
}
