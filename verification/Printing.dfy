/** How the optimized C analyzer prints numbers: integers two digits at a time into a width
    estimated from the bit length, and means rounded to two decimals by an integer bias. */
module Printing {
  import opened ReferenceFold
  import opened Csv
  import Lanes

  // ---- Decimal numerals --------------------------------------------------------------

  /** The canonical decimal numeral. */
  function Numeral(x: nat): (s: seq<Byte>)
    ensures |s| > 0
  {
    if x < 10 then [48 + x] else Numeral(x / 10) + [48 + x % 10]
  }

  function Pow10(n: nat): nat { if n == 0 then 1 else 10 * Pow10(n - 1) }

  /** The numeral spells its number, without a leading zero. */
  lemma {:induction false} NumeralMeaning(x: nat)
    ensures Digits(Numeral(x)) && Decimal(Numeral(x)) == x
    ensures Numeral(x)[0] == ZERO <==> x == 0
  {
    if x < 10 {
      assert Numeral(x) == [] + [48 + x];
      DecimalStep([], 48 + x);
    } else {
      NumeralMeaning(x / 10);
      DecimalStep(Numeral(x / 10), 48 + x % 10);
    }
  }

  lemma {:induction false} NumeralLength(x: nat, d: nat)
    requires d >= 1 && (d == 1 || Pow10(d - 1) <= x) && x < Pow10(d)
    ensures |Numeral(x)| == d
  {
    if d == 1 {
      assert Pow10(1) == 10;
    } else {
      assert x >= 10 * Pow10(d - 2) && x < 10 * Pow10(d - 1);
      if d == 2 {
        assert Pow10(0) == 1;
      } else {
        assert Pow10(d - 2) >= 1;
      }
      NumeralLength(x / 10, d - 1);
    }
  }

  /** Two digits at a time. */
  lemma NumeralPair(x: nat)
    requires x >= 100
    ensures Numeral(x) == Numeral(x / 100) + [48 + x % 100 / 10, 48 + x % 100 % 10]
  {
  }

  // ---- The width estimate ------------------------------------------------------------

  /** 32 less the leading zeros of x | 1. */
  function BitLength(x: nat): (b: nat)
    ensures b >= 1
  {
    if x < 2 then 1 else 1 + BitLength(x / 2)
  }

  lemma {:induction false} BitLengthBounds(x: nat)
    ensures x < Lanes.Pow2(BitLength(x))
    ensures x >= 1 ==> Lanes.Pow2(BitLength(x) - 1) <= x
  {
    if x >= 2 {
      BitLengthBounds(x / 2);
    } else {
      assert Lanes.Pow2(1) == 2 && Lanes.Pow2(0) == 1;
    }
  }

  lemma {:induction false} Pow2Monotone(a: nat, b: nat)
    requires a <= b
    ensures 1 <= Lanes.Pow2(a) <= Lanes.Pow2(b)
    decreases b
  {
    if a < b {
      Pow2Monotone(a, b - 1);
    } else if a > 0 {
      Pow2Monotone(a - 1, b - 1);
    }
  }

  lemma BitLength32(x: Word32)
    ensures BitLength(x) <= 32
  {
    Twos(32);
    BitLengthBounds(x);
    if BitLength(x) > 32 {
      Pow2Monotone(32, BitLength(x) - 1);
    }
  }

  function Estimate(bits: nat): nat { bits * 1233 / 4096 }

  /** One more bit adds at most one digit, and the estimate follows. */
  lemma EstimateBounds(b: nat)
    requires 1 <= b <= 32
    ensures Estimate(b) <= 9
    ensures Lanes.Pow2(b) <= Pow10(Estimate(b) + 1)
    ensures Estimate(b) >= 1 ==> Pow10(Estimate(b) - 1) <= Lanes.Pow2(b - 1)
  {
    Tens();
    Twos(b);
    Twos(b - 1);
    if b <= 16 {
      EstimateLow(b);
    } else {
      EstimateHigh(b);
    }
  }

  lemma EstimateLow(b: nat)
    requires 1 <= b <= 16
    ensures Estimate(b) <= 4
    ensures TWOS[b] <= TENS[Estimate(b) + 1]
    ensures Estimate(b) >= 1 ==> TENS[Estimate(b) - 1] <= TWOS[b - 1]
  {
  }

  lemma EstimateHigh(b: nat)
    requires 16 < b <= 32
    ensures 5 <= Estimate(b) <= 9
    ensures TWOS[b] <= TENS[Estimate(b) + 1] && TENS[Estimate(b) - 1] <= TWOS[b - 1]
  {
  }

  const TENS: seq<nat> := [
    1, 10, 100, 1000, 10000, 100000, 1000000, 10000000, 100000000, 1000000000, 10000000000]

  lemma Tens()
    ensures Pow10(0) == 1 && Pow10(1) == 10 && Pow10(2) == 100 && Pow10(3) == 1000 && Pow10(4) == 10000
    ensures Pow10(5) == 100000 && Pow10(6) == 1000000 && Pow10(7) == 10000000 && Pow10(8) == 100000000
    ensures Pow10(9) == 1000000000 && Pow10(10) == 10000000000
  {
  }

  const TWOS: seq<nat> := [
    1, 2, 4, 8, 16, 32, 64, 128, 256, 512, 1024, 2048, 4096, 8192, 16384, 32768, 65536, 131072, 262144, 524288, 1048576,
    2097152, 4194304, 8388608, 16777216, 33554432, 67108864, 134217728, 268435456, 536870912, 1073741824, 2147483648,
    4294967296]

  lemma {:induction false} Twos(b: nat)
    requires b <= 32
    ensures Lanes.Pow2(b) == TWOS[b]
  {
    if b > 0 {
      Twos(b - 1);
      TwosDouble(b);
    }
  }

  lemma TwosDouble(b: nat)
    requires 1 <= b <= 32
    ensures TWOS[b] == 2 * TWOS[b - 1]
  {
  }

  function Digits32(x: Word32): nat {
    var estimate := Estimate(BitLength(x));
    var digits := estimate + if x >= Pow10(estimate) then 1 else 0;
    if digits == 0 then 1 else digits
  }

  /** The width computed from the bit length is the numeral's, for every 32-bit value. */
  lemma WidthIsExact(x: Word32)
    ensures Digits32(x) == |Numeral(x)|
  {
    var b := BitLength(x);
    BitLength32(x);
    BitLengthBounds(x);
    EstimateBounds(b);
    var estimate := Estimate(b);
    if x >= Pow10(estimate) {
      NumeralLength(x, estimate + 1);
    } else if estimate >= 1 {
      NumeralLength(x, estimate);
    } else {
      assert Pow10(0) == 1 && Pow10(1) == 10;
      NumeralLength(x, 1);
    }
  }

  /** store16 of an entry of digit_pairs. */
  method StorePair(buf: array<Byte>, q: nat, pair: nat)
    requires q + 1 < buf.Length && pair < 100
    modifies buf
    ensures buf[..] == old(buf[..])[q := 48 + pair / 10][q + 1 := 48 + pair % 10]
  {
    buf[q], buf[q + 1] := 48 + pair / 10, 48 + pair % 10;
  }

  /** buf holds the last digits of x from q to end, rest the others, and nothing outside. */
  ghost predicate Written(before: seq<Byte>, buf: seq<Byte>, p: nat, q: nat, end: nat, x: nat, rest: seq<Byte>) {
    && |buf| == |before| && p <= q <= end <= |buf|
    && |rest| == q - p && rest + buf[q..end] == Numeral(x)
    && buf[..p] == before[..p] && buf[end..] == before[end..]
  }

  lemma WritePair(before: seq<Byte>, buf: seq<Byte>, p: nat, q: nat, end: nat, x: nat, front: seq<Byte>, a: Byte, b: Byte)
    requires Written(before, buf, p, q, end, x, front + [a, b])
    ensures q >= 2 && Written(before, buf[q - 2 := a][q - 1 := b], p, q - 2, end, x, front)
  {
  }

  lemma WriteOne(before: seq<Byte>, buf: seq<Byte>, p: nat, q: nat, end: nat, x: nat, front: seq<Byte>, a: Byte)
    requires Written(before, buf, p, q, end, x, front + [a])
    ensures q >= 1 && Written(before, buf[q - 1 := a], p, q - 1, end, x, front)
  {
  }

  lemma AllWritten(before: seq<Byte>, buf: seq<Byte>, p: nat, q: nat, end: nat, x: nat)
    requires Written(before, buf, p, q, end, x, [])
    ensures p == q && buf == before[..p] + Numeral(x) + before[end..]
  {
  }

  /** append_uint */
  method AppendUint(buf: array<Byte>, p: nat, x: Word32) returns (end: nat)
    requires p + |Numeral(x)| <= buf.Length
    modifies buf
    ensures end == p + |Numeral(x)| <= buf.Length
    ensures buf[..] == old(buf[..p]) + Numeral(x) + old(buf[end..])
  {
    WidthIsExact(x);
    end := p + Digits32(x);
    var q, rest := end, x;
    ghost var before := buf[..];
    assert Numeral(x) + before[end..end] == Numeral(x);
    while rest >= 100
      invariant 0 <= rest < WORD32_LIMIT
      invariant Written(before, buf[..], p, q, end, x, Numeral(rest))
      decreases rest
    {
      StoreNext(buf, p, q, end, x, rest, before);
      rest := rest / 100;
      q := q - 2;
    }
    StoreLast(buf, p, q, end, x, rest, before);
    AllWritten(before, buf[..], p, p, end, x);
    assert before[..p] == old(buf[..p]) && before[end..] == old(buf[end..]);
  }

  /** Two digits more, from the back. */
  method StoreNext(buf: array<Byte>, p: nat, q: nat, end: nat, x: Word32, rest: nat, ghost before: seq<Byte>)
    requires rest >= 100 && Written(before, buf[..], p, q, end, x, Numeral(rest))
    modifies buf
    ensures q >= 2 && Written(before, buf[..], p, q - 2, end, x, Numeral(rest / 100))
  {
    var pair := rest % 100;
    NumeralPair(rest);
    WritePair(before, buf[..], p, q, end, x, Numeral(rest / 100), 48 + pair / 10, 48 + pair % 10);
    StorePair(buf, q - 2, pair);
  }

  /** The one or two first digits, written last. */
  method StoreLast(buf: array<Byte>, p: nat, q: nat, end: nat, x: Word32, rest: nat, ghost before: seq<Byte>)
    requires rest < 100 && Written(before, buf[..], p, q, end, x, Numeral(rest))
    modifies buf
    ensures Written(before, buf[..], p, p, end, x, [])
  {
    if rest >= 10 {
      assert Numeral(rest) == [] + [48 + rest / 10, 48 + rest % 10];
      WritePair(before, buf[..], p, q, end, x, [], 48 + rest / 10, 48 + rest % 10);
      StorePair(buf, q - 2, rest);
    } else {
      assert Numeral(rest) == [] + [48 + rest];
      WriteOne(before, buf[..], p, q, end, x, [], 48 + rest);
      StoreDigit(buf, q - 1, rest);
    }
  }

  method StoreDigit(buf: array<Byte>, q: nat, digit: nat)
    requires q < buf.Length && digit < 10
    modifies buf
    ensures buf[..] == old(buf[..])[q := 48 + digit]
  {
    buf[q] := 48 + digit;
  }
}
