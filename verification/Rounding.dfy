/** Printing a mean with two decimals: the quotient as a binary64 number, the exact
    big-integer rounding of the TypeScript baseline, and the C analyzer's biased shift. */
module Rounding {
  import opened ReferenceFold
  import opened Csv
  import opened Lanes
  import opened Printing

  const IMPLICIT_BIT := 0x10_0000_0000_0000

  /** A normal binary64 number sig / 2^shift of at least one, by its two fields. */
  datatype Binary64 = Binary64(sig: nat, shift: nat)

  predicate Normal(d: Binary64) {
    IMPLICIT_BIT <= d.sig < 2 * IMPLICIT_BIT && 21 <= d.shift <= 52
  }

  /** The nearest integer to a / b, ties to even. */
  ghost predicate NearestEven(n: nat, a: nat, b: nat) {
    var twice: int := 2 * (n * b) - 2 * a;
    && twice <= b && twice + b >= 0
    && (twice == b || twice + b == 0 ==> n % 2 == 0)
  }

  lemma MulGap(m: int, n: int, b: nat)
    requires m + 1 <= n
    ensures m * b + b <= n * b
  {
    assert (n - m - 1) * b >= 0;
  }

  /** There is only one such integer. */
  lemma NearestIsUnique(m: nat, n: nat, a: nat, b: nat)
    requires b > 0 && NearestEven(m, a, b) && NearestEven(n, a, b)
    ensures m == n
  {
    if m < n {
      MulGap(m, n, b);
      if m + 1 < n {
        MulGap(m, n - 1, b);
        MulGap(n - 1, n, b);
      }
    }
    if n < m {
      MulGap(n, m, b);
      if n + 1 < m {
        MulGap(n, m - 1, b);
        MulGap(m - 1, m, b);
      }
    }
  }

  /** Rounding never leaves an interval with integer ends. */
  lemma NearestBetween(n: nat, a: nat, b: nat, low: nat, high: nat)
    requires b > 0 && NearestEven(n, a, b) && low * b <= a <= high * b
    ensures low <= n <= high
  {
    if n < low {
      MulGap(n, low, b);
    }
    if n > high {
      MulGap(high, n, b);
    }
  }

  // ---- formatFixed2: the big-integer reference ---------------------------------------

  /** Quotient, remainder, and one more when the remainder exceeds a half or equals it after
      an odd quotient. */
  function RoundTiesToEven(scaled: nat, denominator: nat): nat
    requires denominator > 0
  {
    var quotient, remainder := scaled / denominator, scaled % denominator;
    if 2 * remainder > denominator || (2 * remainder == denominator && quotient % 2 == 1) then quotient + 1 else quotient
  }

  lemma NearestFromParts(a: nat, b: nat, q: nat, r: nat)
    requires b > 0 && a == q * b + r && r < b
    ensures 2 * r > b || (2 * r == b && q % 2 == 1) ==> NearestEven(q + 1, a, b)
    ensures 2 * r < b || (2 * r == b && q % 2 == 0) ==> NearestEven(q, a, b)
  {
  }

  /** roundTiesToEven: the nearest integer, of two equally near ones the even. */
  lemma RoundsToNearest(scaled: nat, denominator: nat)
    requires denominator > 0
    ensures NearestEven(RoundTiesToEven(scaled, denominator), scaled, denominator)
  {
    DivMod(scaled, denominator);
    NearestFromParts(scaled, denominator, scaled / denominator, scaled % denominator);
  }

  lemma DivMod(a: nat, b: nat)
    requires b > 0
    ensures a == (a / b) * b + a % b && 0 <= a % b < b
    ensures a / b >= 0
  {
  }

  function FormatFixed2Cents(d: Binary64): nat {
    Pow2Monotone(0, d.shift);
    RoundTiesToEven(d.sig * 100, Pow2(d.shift))
  }

  // ---- append_average ----------------------------------------------------------------

  /** The bias before the shift: half a unit less one, plus the quotient's parity. */
  function Bias(product: nat, shift: nat): nat
    requires shift >= 1
  {
    Pow2Monotone(0, shift);
    Pow2(shift - 1) - 1 + product / Pow2(shift) % 2
  }

  function ShiftedCents(d: Binary64): nat
    requires d.shift >= 1
  {
    Pow2Monotone(0, d.shift);
    var product := d.sig * 100;
    (product + Bias(product, d.shift)) / Pow2(d.shift)
  }

  /** Biasing and truncating rounds to nearest, ties to even. */
  lemma BiasRounds(product: nat, half: nat, unit: nat, q: nat, r: nat) returns (n: nat)
    requires half > 0 && unit == 2 * half && product == q * unit + r && r < unit
    ensures n == (product + (half - 1 + q % 2)) / unit && NearestEven(n, product, unit)
  {
    var bias := half - 1 + q % 2;
    NearestFromParts(product, unit, q, r);
    if r + bias < unit {
      n := q;
      DivUnique(product + bias, unit, q, r + bias);
    } else {
      n := q + 1;
      assert (q + 1) * unit == q * unit + unit;
      DivUnique(product + bias, unit, q + 1, r + bias - unit);
    }
  }

  lemma DivUnique(a: nat, b: nat, q: nat, r: nat)
    requires b > 0 && a == q * b + r && r < b
    ensures a / b == q
  {
    DivMod(a, b);
    if a / b < q {
      MulGap(a / b, q, b);
    }
    if a / b > q {
      MulGap(q, a / b, b);
    }
  }

  lemma BiasIsReference(product: nat, half: nat, unit: nat)
    requires half > 0 && unit == 2 * half
    ensures (product + (half - 1 + product / unit % 2)) / unit == RoundTiesToEven(product, unit)
  {
    var q, r := product / unit, product % unit;
    DivMod(product, unit);
    var n := BiasRounds(product, half, unit, q, r);
    RoundsToNearest(product, unit);
    NearestIsUnique(n, RoundTiesToEven(product, unit), product, unit);
  }

  /** For every binary64 the C rounding is the reference rounding. */
  lemma ShiftIsReference(d: Binary64)
    requires d.shift >= 1
    ensures ShiftedCents(d) == FormatFixed2Cents(d)
  {
    Pow2Monotone(0, d.shift - 1);
    BiasIsReference(d.sig * 100, Pow2(d.shift - 1), Pow2(d.shift));
  }

  // ---- The quotient in binary64 ------------------------------------------------------

  /** Division of two integers rounds to the nearest 53-bit significand; the exact quotient, scaled,
      does have 53 bits before the point. */
  ghost predicate IsQuotient(d: Binary64, total: nat, count: nat) {
    && Normal(d) && NearestEven(d.sig, total * Pow2(d.shift), count)
    && count * IMPLICIT_BIT <= total * Pow2(d.shift)
  }

  /** The exponent: how often count can be doubled below total. */
  function FloorLog(total: nat, count: nat): (k: nat)
    requires 1 <= count <= total
  {
    if total < 2 * count then 0 else 1 + FloorLog(total / 2, count)
  }

  lemma {:induction false} FloorLogBounds(total: nat, count: nat)
    requires 1 <= count <= total
    ensures count * Pow2(FloorLog(total, count)) <= total < 2 * count * Pow2(FloorLog(total, count))
  {
    if total < 2 * count {
      assert Pow2(0) == 1;
    } else {
      FloorLogBounds(total / 2, count);
    }
  }

  /** The correctly rounded quotient. */
  function Divide(total: nat, count: nat): Binary64
    requires 1 <= count <= total < WORD32_LIMIT
  {
    FloorLogBounds(total, count);
    FloorLogSmall(total, count);
    var shift := 52 - FloorLog(total, count);
    Binary64(RoundTiesToEven(total * Pow2(shift), count), shift)
  }

  lemma {:induction false} Pow2Sum(a: nat, b: nat)
    ensures Pow2(a) * Pow2(b) == Pow2(a + b)
  {
    if a > 0 {
      Pow2Sum(a - 1, b);
      assert Pow2(a) * Pow2(b) == 2 * (Pow2(a - 1) * Pow2(b));
    } else {
      assert Pow2(0) == 1;
    }
  }

  lemma FloorLogSmall(total: nat, count: nat)
    requires 1 <= count <= total < WORD32_LIMIT
    ensures FloorLog(total, count) <= 31
  {
    var k := FloorLog(total, count);
    FloorLogBounds(total, count);
    Twos(32);
    if k >= 32 {
      Pow2Monotone(32, k);
      MulAtLeast(count, Pow2(k));
    }
  }

  lemma MulAtLeast(a: nat, b: nat)
    requires a >= 1
    ensures a * b >= b
  {
  }

  lemma Pow2Of52()
    ensures Pow2(52) == IMPLICIT_BIT
  {
    Twos(26);
    Pow2Sum(26, 26);
  }

  lemma Mul3(a: int, b: int, c: int)
    ensures a * b * c == a * c * b
    ensures a * b * c == a * (b * c)
  {
  }

  lemma AtLeastImplicitBit(sig: nat, scaled: nat, count: nat)
    requires 1 <= count && count * IMPLICIT_BIT <= scaled && NearestEven(sig, scaled, count)
    ensures sig >= IMPLICIT_BIT
  {
    if sig < IMPLICIT_BIT {
      MulGap(sig, IMPLICIT_BIT, count);
    }
  }

  lemma BelowCarry(sig: nat, scaled: nat, count: nat, p: nat)
    requires scaled + p <= 2 * (count * IMPLICIT_BIT) && count < 2 * p && NearestEven(sig, scaled, count)
    ensures sig < 2 * IMPLICIT_BIT
  {
  }

  /** total * p lies between 2^52 and 2^53 times count, and no nearest significand rounds up to
      2^53. */
  lemma NoCarry(sig: nat, total: nat, count: nat, p: nat, e: nat)
    requires 1 <= count && p * e == IMPLICIT_BIT && count * e <= total < 2 * (count * e) && total < WORD32_LIMIT
    requires p >= 1 && e >= 1 && NearestEven(sig, total * p, count)
    ensures IMPLICIT_BIT <= sig < 2 * IMPLICIT_BIT
  {
    var x := count * e;
    ScaledBounds(total, count, p, e, x);
    AtLeastImplicitBit(sig, total * p, count);
    if count >= 2 * p {
      Scale(2 * p, count, e);
      Mul3(2, p, e);
    }
    BelowCarry(sig, total * p, count, p);
  }

  lemma ScaledBounds(total: nat, count: nat, p: nat, e: nat, x: nat)
    requires p * e == IMPLICIT_BIT && x == count * e && x <= total < 2 * x
    ensures count * IMPLICIT_BIT <= total * p && total * p + p <= 2 * (count * IMPLICIT_BIT)
  {
  }

  lemma Scale(a: nat, b: nat, c: nat)
    requires a <= b
    ensures a * c <= b * c
  {
  }

  /** The division rounds correctly and stays in the range append_average decodes. */
  lemma DivideIsQuotient(total: nat, count: nat)
    requires 1 <= count <= total < WORD32_LIMIT
    ensures IsQuotient(Divide(total, count), total, count)
  {
    var k := FloorLog(total, count);
    FloorLogBounds(total, count);
    FloorLogSmall(total, count);
    Pow2Monotone(0, k);
    Pow2Monotone(0, 52 - k);
    Pow2Sum(52 - k, k);
    Pow2Of52();
    QuotientIsNormal(total, count, Pow2(52 - k), Pow2(k));
  }

  lemma QuotientIsNormal(total: nat, count: nat, p: nat, e: nat)
    requires 1 <= count && p * e == IMPLICIT_BIT && count * e <= total < 2 * count * e && total < WORD32_LIMIT
    requires p >= 1 && e >= 1
    ensures var sig := RoundTiesToEven(total * p, count);
            NearestEven(sig, total * p, count) && IMPLICIT_BIT <= sig < 2 * IMPLICIT_BIT
    ensures count * IMPLICIT_BIT <= total * p
  {
    ScaledBounds(total, count, p, e, count * e);
    RoundsToNearest(total * p, count);
    Mul3(2, count, e);
    NoCarry(RoundTiesToEven(total * p, count), total, count, p, e);
  }

  lemma {:induction false} Pow2Doubles(a: nat, b: nat)
    requires a < b
    ensures 2 * Pow2(a) <= Pow2(b)
    decreases b
  {
    if a + 1 < b {
      Pow2Doubles(a, b - 1);
    }
  }

  lemma NearestAtLeast(n: nat, a: nat, b: nat, low: nat)
    requires b > 0 && NearestEven(n, a, b) && low * b <= a
    ensures n >= low
  {
    if n < low {
      MulGap(n, low, b);
    }
  }

  /** A larger scale would need more than 53 bits. */
  lemma SmallerShift(d: Binary64, e: Binary64, total: nat, count: nat)
    requires count >= 1 && IsQuotient(d, total, count) && IsQuotient(e, total, count)
    ensures d.shift >= e.shift
  {
    if d.shift < e.shift {
      Pow2Doubles(d.shift, e.shift);
      ScaleTwice(total, Pow2(d.shift), Pow2(e.shift), count);
      NearestAtLeast(e.sig, total * Pow2(e.shift), count, 2 * IMPLICIT_BIT);
    }
  }

  lemma ScaleTwice(total: nat, p: nat, q: nat, count: nat)
    requires 2 * p <= q && count * IMPLICIT_BIT <= total * p
    ensures 2 * IMPLICIT_BIT * count <= total * q
  {
    Scale(2 * p, q, total);
    Mul3(2, p, total);
  }

  /** There is one quotient. */
  lemma QuotientIsUnique(d: Binary64, e: Binary64, total: nat, count: nat)
    requires count >= 1 && IsQuotient(d, total, count) && IsQuotient(e, total, count)
    ensures d == e
  {
    SmallerShift(d, e, total, count);
    SmallerShift(e, d, total, count);
    NearestIsUnique(d.sig, e.sig, total * Pow2(d.shift), count);
  }

  /** The hundredths printed for a mean: the quotient's, to the nearest, ties to even. */
  ghost predicate IsMean(cents: nat, total: nat, count: nat) {
    exists d: Binary64 :: IsQuotient(d, total, count) && IsHundredths(cents, d)
  }

  ghost predicate IsHundredths(cents: nat, d: Binary64) { NearestEven(cents, d.sig * 100, Pow2(d.shift)) }

  lemma MeanIsUnique(m: nat, n: nat, total: nat, count: nat)
    requires count >= 1 && IsMean(m, total, count) && IsMean(n, total, count)
    ensures m == n
  {
    var d: Binary64 :| IsQuotient(d, total, count) && IsHundredths(m, d);
    var e: Binary64 :| IsQuotient(e, total, count) && IsHundredths(n, e);
    QuotientIsUnique(d, e, total, count);
    Pow2Monotone(0, d.shift);
    NearestIsUnique(m, n, d.sig * 100, Pow2(d.shift));
  }

  /** What is computed for a mean is that. */
  lemma CentsAreMean(total: nat, count: nat)
    requires 1 <= count <= total < WORD32_LIMIT
    ensures IsMean(FormatFixed2Cents(Divide(total, count)), total, count)
  {
    var d := Divide(total, count);
    DivideIsQuotient(total, count);
    Pow2Monotone(0, d.shift);
    RoundsToNearest(d.sig * 100, Pow2(d.shift));
    assert IsHundredths(FormatFixed2Cents(d), d);
  }

  /** Both bounds of the lengths bound the printed mean, in hundredths. */
  lemma MeanBetween(total: nat, count: nat, min: nat, max: nat, d: Binary64)
    requires count >= 1 && min * count <= total <= max * count && IsQuotient(d, total, count)
    ensures 100 * min <= FormatFixed2Cents(d) <= 100 * max
  {
    var p := Pow2(d.shift);
    Pow2Monotone(0, d.shift);
    SigBetween(d.sig, total, count, min, max, p);
    RoundsToNearest(d.sig * 100, p);
    Mul3(100, min, p);
    Mul3(100, max, p);
    NearestBetween(FormatFixed2Cents(d), d.sig * 100, p, 100 * min, 100 * max);
  }

  lemma SigBetween(sig: nat, total: nat, count: nat, min: nat, max: nat, p: nat)
    requires count >= 1 && min * count <= total <= max * count && NearestEven(sig, total * p, count)
    ensures min * p <= sig <= max * p
  {
    Scale(min * count, total, p);
    Scale(total, max * count, p);
    Mul3(min, count, p);
    Mul3(max, count, p);
    NearestBetween(sig, total * p, count, min * p, max * p);
  }

  const WORD64_LIMIT := 0x1_0000_0000_0000_0000

  /** Every 64-bit intermediate of append_average stays below 2^64. */
  lemma NoOverflow(d: Binary64)
    requires Normal(d)
    ensures d.sig * 100 < WORD64_LIMIT && d.sig * 100 + Bias(d.sig * 100, d.shift) < WORD64_LIMIT
  {
    Pow2Of52();
    Pow2Monotone(d.shift - 1, 52);
  }

  // ---- The bit pattern ---------------------------------------------------------------

  function Bits(d: Binary64): nat
    requires Normal(d)
  {
    (1075 - d.shift) * IMPLICIT_BIT + (d.sig - IMPLICIT_BIT)
  }

  /** The masks and shifts of append_average recover both fields. */
  lemma BitsDecode(d: Binary64)
    requires Normal(d)
    ensures Bits(d) % IMPLICIT_BIT + IMPLICIT_BIT == d.sig
    ensures 1075 - Bits(d) / IMPLICIT_BIT % 2048 == d.shift
  {
  }

  // ---- The text ----------------------------------------------------------------------

  const POINT: Byte := 46

  function PadTwo(x: nat): seq<Byte> { if |Numeral(x)| < 2 then [Csv.ZERO] + Numeral(x) else Numeral(x) }

  /** The string formatFixed2 returns for a number of hundredths. */
  function FixedText(cents: nat): seq<Byte> { Numeral(cents / 100) + [POINT] + PadTwo(cents % 100) }

  lemma DivTen(n: nat, q: nat, r: nat)
    requires n == 10 * q + r && r < 10
    ensures n / 10 == q && n % 10 == r
  {
  }

  lemma PadTwoDigits(cents: nat)
    ensures PadTwo(cents % 100) == [48 + cents / 10 % 10, 48 + cents % 10]
  {
    var q, x := cents / 100, cents % 100;
    DivTen(x, x / 10, x % 10);
    DivTen(cents, 10 * q + x / 10, x % 10);
    DivTen(10 * q + x / 10, q, x / 10);
    if x >= 10 {
      assert Numeral(x) == Numeral(x / 10) + [48 + x % 10];
    }
  }

  /** append_average writes exactly what formatFixed2 returns for the same quotient. */
  method AppendAverage(buf: array<Byte>, p: nat, total: Word32, count: Word32) returns (end: nat)
    requires 1 <= count <= total
    requires p + |FixedText(FormatFixed2Cents(Divide(total, count)))| <= buf.Length
    modifies buf
    ensures var text := FixedText(FormatFixed2Cents(Divide(total, count)));
            end == p + |text| <= buf.Length && buf[..] == old(buf[..p]) + text + old(buf[end..])
  {
    var average := Divide(total, count);
    DivideIsQuotient(total, count);
    var scaled := ScaledCents(Bits(average), average);
    CentsFit(total, count);
    end := AppendFixed(buf, p, scaled);
  }

  /** Hundredths from the bit pattern, by one biased shift. */
  method ScaledCents(bits: nat, ghost average: Binary64) returns (scaled: nat)
    requires Normal(average) && bits == Bits(average)
    ensures scaled == FormatFixed2Cents(average)
  {
    BitsDecode(average);
    NoOverflow(average);
    ShiftIsReference(average);
    var product := (bits % IMPLICIT_BIT + IMPLICIT_BIT) * 100;
    var shift := 1075 - bits / IMPLICIT_BIT % 2048;
    scaled := 0;
    if shift < 64 {
      Pow2Monotone(0, shift);
      scaled := (product + Bias(product, shift)) / Pow2(shift);
    }
  }

  /** The whole part of a printed mean fits the 32-bit parameter of append_uint. */
  lemma CentsFit(total: Word32, count: Word32)
    requires 1 <= count <= total
    ensures FormatFixed2Cents(Divide(total, count)) / 100 < WORD32_LIMIT
  {
    DivideIsQuotient(total, count);
    MulAtLeast(count, total);
    MeanBetween(total, count, 0, total, Divide(total, count));
  }

  /** The three bytes behind the whole part. */
  method AppendCents(buf: array<Byte>, q: nat, cents: nat)
    requires q + 3 <= buf.Length
    modifies buf
    ensures buf[..] == old(buf[..q]) + ([POINT] + PadTwo(cents % 100)) + old(buf[q + 3..])
  {
    ghost var before := buf[..];
    PadTwoDigits(cents);
    buf[q] := POINT;
    buf[q + 1] := 48 + cents / 10 % 10;
    buf[q + 2] := 48 + cents % 10;
    assert buf[..] == before[..q] + ([POINT] + [48 + cents / 10 % 10, 48 + cents % 10]) + before[q + 3..];
  }

  /** The closing writes: whole part, point, two digits. */
  method AppendFixed(buf: array<Byte>, p: nat, cents: nat) returns (end: nat)
    requires cents / 100 < WORD32_LIMIT && p + |FixedText(cents)| <= buf.Length
    modifies buf
    ensures end == p + |FixedText(cents)| <= buf.Length
    ensures buf[..] == old(buf[..p]) + FixedText(cents) + old(buf[end..])
  {
    ghost var before := buf[..];
    PadTwoDigits(cents);
    var q := AppendUint(buf, p, cents / 100);
    ghost var middle := buf[..];
    AppendCents(buf, q, cents);
    end := q + 3;
    TwoWrites(before, middle, buf[..], p, q, end, Numeral(cents / 100), [POINT] + PadTwo(cents % 100));
    assert FixedText(cents) == Numeral(cents / 100) + ([POINT] + PadTwo(cents % 100));
  }

  lemma TwoWrites(before: seq<Byte>, middle: seq<Byte>, after: seq<Byte>, p: nat, q: nat, end: nat, a: seq<Byte>, b: seq<Byte>)
    requires q == p + |a| && end == q + |b| && end <= |before|
    requires middle == before[..p] + a + before[q..] && after == middle[..q] + b + middle[end..]
    ensures after == before[..p] + (a + b) + before[end..]
  {
  }

  // ---- The mean of a group -----------------------------------------------------------

  lemma {:induction false} TotalBetween(rows: seq<Row>, channel: Key, month: nat)
    requires forall i :: 0 <= i < |rows| ==> rows[i].length >= 1
    ensures var stat := At(rows, channel, month);
            stat.Some? ==>
              && 1 <= stat.value.count <= stat.value.total && 1 <= stat.value.min <= stat.value.max
              && stat.value.min * stat.value.count <= stat.value.total <= stat.value.max * stat.value.count
  {
    if |rows| > 0 {
      var front, last := rows[..|rows| - 1], rows[|rows| - 1];
      TotalBetween(front, channel, month);
      var a := At(front, channel, month);
      if a.Some? && last.channel == channel && last.month == month {
        OneMore(a.value.total, a.value.count, a.value.min, a.value.max, last.length);
      }
    }
  }

  lemma OneMore(total: nat, count: nat, min: nat, max: nat, length: nat)
    requires min * count <= total <= max * count
    ensures Min(min, length) * (count + 1) <= total + length <= Max(max, length) * (count + 1)
  {
  }

  /** What is printed as a group's mean lies between its printed minimum and maximum. */
  lemma PrintedMeanBetween(rows: seq<Row>, channel: Key, month: nat)
    requires forall i :: 0 <= i < |rows| ==> rows[i].length >= 1
    requires At(rows, channel, month).Some? && At(rows, channel, month).value.total < WORD32_LIMIT
    ensures var a := At(rows, channel, month).value;
            && 1 <= a.count <= a.total
            && 100 * a.min <= FormatFixed2Cents(Divide(a.total, a.count)) <= 100 * a.max
  {
    TotalBetween(rows, channel, month);
    var a := At(rows, channel, month).value;
    DivideIsQuotient(a.total, a.count);
    MeanBetween(a.total, a.count, a.min, a.max, Divide(a.total, a.count));
  }
}
