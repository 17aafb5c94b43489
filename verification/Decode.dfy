/** How the optimized C analyzer reads one row: eight timestamp digits by dot products, the
    channel by sixteen-byte probes, and the two numbers by classifying the eight bytes of
    the row's tail, with a scalar loop for every other shape. */
module Decode {
  import opened ReferenceFold
  import opened Months
  import opened Csv

  /** Four unsigned bytes against four signed weights, as one 32-bit lane of _mm_dpbusd_epi32
      or of the maddubs/dpwssd pair accumulates them. */
  function Dot4(acc: int, b0: Byte, b1: Byte, b2: Byte, b3: Byte, w0: int, w1: int, w2: int, w3: int): int {
    acc + w0 * b0 as int + w1 * b1 as int + w2 * b2 as int + w3 * b3 as int
  }

  // ---- Timestamps --------------------------------------------------------------------

  /** _mm_maddubs_epi16 with weights 10 and 1, then _mm_madd_epi16 with 100 and 1. */
  function Quad(mem: seq<Byte>, p: nat): int
    requires p + 4 <= |mem|
  {
    Dot4(0, mem[p], mem[p + 1], mem[p + 2], mem[p + 3], 1000, 100, 10, 1)
  }

  /** The first eight digits; the constant removes the ASCII zeros of all eight. */
  function Timestamp8(mem: seq<Byte>, p: nat): Word32
    requires p + 8 <= |mem|
  {
    (Quad(mem, p) * 10000 + Quad(mem, p + 4) - 533333328) % WORD32_LIMIT
  }

  lemma Decimal1(a: Byte)
    requires Digit(a)
    ensures Decimal([a]) == a - 48
  {
    DecimalStep([], a);
    assert [] + [a] == [a];
  }

  lemma Decimal2(a: Byte, b: Byte)
    requires Digit(a) && Digit(b)
    ensures Decimal([a, b]) == 10 * (a - 48) + (b - 48)
  {
    Decimal1(a);
    DecimalStep([a], b);
    assert [a] + [b] == [a, b];
  }

  lemma Decimal3(a: Byte, b: Byte, c: Byte)
    requires Digit(a) && Digit(b) && Digit(c)
    ensures Decimal([a, b, c]) == 100 * (a - 48) + 10 * (b - 48) + (c - 48)
  {
    Decimal2(a, b);
    DecimalStep([a, b], c);
    assert [a, b] + [c] == [a, b, c];
  }

  lemma Decimal4(a: Byte, b: Byte, c: Byte, d: Byte)
    requires Digit(a) && Digit(b) && Digit(c) && Digit(d)
    ensures Decimal([a, b, c, d]) == 1000 * (a - 48) + 100 * (b - 48) + 10 * (c - 48) + (d - 48)
  {
    Decimal3(a, b, c);
    DecimalStep([a, b, c], d);
    assert [a, b, c] + [d] == [a, b, c, d];
  }

  /** Four more digits after a digit string. */
  lemma DecimalPlus4(s: seq<Byte>, t: seq<Byte>)
    requires (forall i :: 0 <= i < |s| ==> Digit(s[i])) && |t| == 4 && Digits(t)
    ensures Decimal(s + t) == 10000 * Decimal(s) + Decimal(t)
  {
    Decimal4(t[0], t[1], t[2], t[3]);
    assert t == [t[0], t[1], t[2], t[3]];
    DecimalStep(s, t[0]);
    DecimalStep(s + [t[0]], t[1]);
    DecimalStep(s + [t[0]] + [t[1]], t[2]);
    DecimalStep(s + [t[0]] + [t[1]] + [t[2]], t[3]);
    assert s + t == s + [t[0]] + [t[1]] + [t[2]] + [t[3]];
  }

  lemma QuadValue(mem: seq<Byte>, p: nat, t: seq<Byte>)
    requires p + 4 <= |mem| && |t| == 4 && Digits(t)
    requires mem[p] == t[0] && mem[p + 1] == t[1] && mem[p + 2] == t[2] && mem[p + 3] == t[3]
    ensures Quad(mem, p) == Decimal(t) + 53328
    ensures Decimal(t) < 10000
  {
    assert t == [t[0], t[1], t[2], t[3]];
    Decimal4(t[0], t[1], t[2], t[3]);
  }

  lemma DecimalPlus2(s: seq<Byte>, a: Byte, b: Byte)
    requires (forall i :: 0 <= i < |s| ==> Digit(s[i])) && Digit(a) && Digit(b)
    ensures Decimal(s + [a, b]) / 100 == Decimal(s)
  {
    DecimalStep(s, a);
    DecimalStep(s + [a], b);
    assert s + [a, b] == s + [a] + [b];
  }

  /** The dot products give the first eight digits of a ten-digit timestamp, which is the
      timestamp in units of a hundred seconds. */
  lemma Timestamp8Value(mem: seq<Byte>, p: nat, timestamp: seq<Byte>)
    requires |timestamp| == 10 && Digits(timestamp) && Occurs(mem, p, timestamp)
    ensures Timestamp8(mem, p) == Decimal(timestamp) / 100
  {
    var a, b := timestamp[..4], timestamp[4..8];
    var m := mem[p..p + 10];
    assert mem[p] == m[0] && mem[p + 1] == m[1] && mem[p + 2] == m[2] && mem[p + 3] == m[3];
    assert mem[p + 4] == m[4] && mem[p + 5] == m[5] && mem[p + 6] == m[6] && mem[p + 7] == m[7];
    QuadValue(mem, p, a);
    QuadValue(mem, p + 4, b);
    DecimalPlus4(a, b);
    DecimalPlus2(a + b, timestamp[8], timestamp[9]);
    assert timestamp == a + b + [timestamp[8], timestamp[9]];
  }

  // ---- Channels ----------------------------------------------------------------------

  /** The position of the first comma of a sixteen-byte block (movemask and ctz), or 16. */
  function FirstComma(mem: seq<Byte>, p: nat, i: nat): (r: nat)
    requires i <= 16 && p + 16 <= |mem|
    ensures i <= r <= 16
    ensures forall j :: p + i <= j < p + r ==> mem[j] != COMMA
    ensures r < 16 ==> mem[p + r] == COMMA
    decreases 16 - i
  {
    if i == 16 || mem[p + i] == COMMA then i else FirstComma(mem, p, i + 1)
  }

  /** channel_length and channel_length_long: blocks of sixteen bytes until one has a comma. */
  method ChannelLength(mem: seq<Byte>, p: nat, ghost length: nat) returns (n: nat)
    requires p + length + 16 <= |mem|
    requires mem[p + length] == COMMA && forall j :: p <= j < p + length ==> mem[j] != COMMA
    ensures n == length
  {
    var offset := 0;
    n := FirstComma(mem, p, 0);
    while n == 16
      invariant 0 <= n <= 16 && offset + n <= length
      invariant n < 16 ==> offset + n == length
      decreases length - offset, n
    {
      offset := offset + 16;
      n := FirstComma(mem, p + offset, 0);
    }
    n := offset + n;
  }

  // ---- Tails -------------------------------------------------------------------------

  /** The eight tail bytes, shifted by one ASCII zero unless the fourth is a comma. */
  function Align(window: seq<Byte>): (r: seq<Byte>)
    requires |window| == 8
    ensures |r| == 8
  {
    if window[3] == COMMA then window else [ZERO] + window[..7]
  }

  /** Which bytes of memory a tail of the given digits occupies. */
  ghost predicate TailAt(mem: seq<Byte>, p: nat, length: seq<Byte>, stamps: seq<Byte>) {
    && Digits(length) && Digits(stamps)
    && p + |length| + |stamps| + 2 + 8 <= |mem|
    && (forall i {:trigger length[i]} :: 0 <= i < |length| ==> mem[p + i] == length[i])
    && mem[p + |length|] == COMMA
    && (forall i {:trigger stamps[i]} :: 0 <= i < |stamps| ==> mem[p + |length| + 1 + i] == stamps[i])
    && mem[p + |length| + 1 + |stamps|] == LF
    && mem[p + |length| + |stamps| + 2] != COMMA
  }

  /** The shapes the eight-byte classifier recognises. */
  predicate FastShape(lengthDigits: nat, stampDigits: nat) {
    ((lengthDigits == 2 || lengthDigits == 3) && (stampDigits == 1 || stampDigits == 2)) ||
    (lengthDigits == 4 && stampDigits == 1)
  }

  /** Delimiters of the first fast shape, as _pext_u64 collects them from bytes 3 and 5. */
  predicate OneDigitStamp(a: seq<Byte>) requires |a| == 8 { a[3] == COMMA && a[5] == LF }

  predicate TwoDigitStamp(a: seq<Byte>) requires |a| == 8 { a[3] == COMMA && a[6] == LF }

  predicate FourDigitLength(a: seq<Byte>) requires |a| == 8 { a[5] == COMMA && a[7] == LF }

  /** The byte tests tell these numbers of digits. */
  predicate Tells(a: seq<Byte>, lengthDigits: nat, stampDigits: nat)
    requires |a| == 8
  {
    && (OneDigitStamp(a) <==> (lengthDigits == 2 || lengthDigits == 3) && stampDigits == 1)
    && (!OneDigitStamp(a) ==> (TwoDigitStamp(a) <==> (lengthDigits == 2 || lengthDigits == 3) && stampDigits == 2))
    && (!OneDigitStamp(a) && !TwoDigitStamp(a) ==> (FourDigitLength(a) <==> lengthDigits == 4 && stampDigits == 1))
  }

  /** What the classifier sees is exactly the numbers of digits. */
  lemma ClassifierIsExact(mem: seq<Byte>, p: nat, length: seq<Byte>, stamps: seq<Byte>)
    requires TailAt(mem, p, length, stamps)
    ensures Tells(Align(mem[p..p + 8]), |length|, |stamps|)
    ensures mem[p + 3] == COMMA <==> |length| == 3
  {
    DelimiterAt(mem, p, length, stamps, 3);
    AlignedBytes(mem, p);
    if |length| == 3 {
      ThreeDigitsTell(mem, p, length, stamps, Align(mem[p..p + 8]));
    } else if |length| == 2 {
      TwoDigitsTell(mem, p, length, stamps, Align(mem[p..p + 8]));
    } else {
      OtherDigitsTell(mem, p, length, stamps, Align(mem[p..p + 8]));
    }
  }

  /** Inside a tail the delimiters stand behind the two numbers and nowhere else. */
  lemma DelimiterAt(mem: seq<Byte>, p: nat, length: seq<Byte>, stamps: seq<Byte>, i: nat)
    requires TailAt(mem, p, length, stamps) && i < 8 && i <= |length| + |stamps| + 1
    ensures mem[p + i] == COMMA <==> i == |length|
    ensures mem[p + i] == LF <==> i == |length| + |stamps| + 1
  {
    TailByte(mem, p, length, stamps, i);
  }

  lemma ThreeDigitsTell(mem: seq<Byte>, p: nat, length: seq<Byte>, stamps: seq<Byte>, a: seq<Byte>)
    requires TailAt(mem, p, length, stamps) && |length| == 3
    requires |a| == 8 && a[3] == mem[p + 3] && a[5] == mem[p + 5] && a[6] == mem[p + 6]
    ensures Tells(a, |length|, |stamps|)
  {
    DelimiterAt(mem, p, length, stamps, 3);
    DelimiterAt(mem, p, length, stamps, 5);
    if |stamps| > 1 {
      DelimiterAt(mem, p, length, stamps, 6);
    }
  }

  lemma TwoDigitsTell(mem: seq<Byte>, p: nat, length: seq<Byte>, stamps: seq<Byte>, a: seq<Byte>)
    requires TailAt(mem, p, length, stamps) && |length| == 2
    requires |a| == 8 && a[3] == mem[p + 2] && a[5] == mem[p + 4] && a[6] == mem[p + 5]
    ensures Tells(a, |length|, |stamps|)
  {
    DelimiterAt(mem, p, length, stamps, 2);
    DelimiterAt(mem, p, length, stamps, 4);
    if |stamps| > 1 {
      DelimiterAt(mem, p, length, stamps, 5);
    }
  }

  lemma OtherDigitsTell(mem: seq<Byte>, p: nat, length: seq<Byte>, stamps: seq<Byte>, a: seq<Byte>)
    requires TailAt(mem, p, length, stamps) && |length| != 2 && |length| != 3
    requires |a| == 8 && a[3] == mem[p + 2] && a[5] == mem[p + 4] && a[7] == mem[p + 6]
    ensures Tells(a, |length|, |stamps|)
  {
    DelimiterAt(mem, p, length, stamps, 2);
    if |length| + |stamps| + 1 < 4 {
      TailByte(mem, p, length, stamps, 4);
    } else {
      DelimiterAt(mem, p, length, stamps, 4);
      if |length| == 4 {
        DelimiterAt(mem, p, length, stamps, 6);
      }
    }
  }

  lemma AlignedByte(mem: seq<Byte>, p: nat, i: nat)
    requires p + 8 <= |mem| && i < 8
    ensures Align(mem[p..p + 8])[i] ==
            if mem[p + 3] == COMMA then mem[p + i] else if i == 0 then ZERO else mem[p + i - 1]
  {
    var window := mem[p..p + 8];
    assert window[3] == mem[p + 3] && window[i] == mem[p + i];
    if i > 0 {
      assert ([ZERO] + window[..7])[i] == window[i - 1] == mem[p + (i - 1)];
    }
  }

  lemma AlignedBytes(mem: seq<Byte>, p: nat)
    requires p + 8 <= |mem|
    ensures var a := Align(mem[p..p + 8]);
            if mem[p + 3] == COMMA
            then a[0] == mem[p] && a[1] == mem[p + 1] && a[2] == mem[p + 2] && a[3] == mem[p + 3] &&
                 a[4] == mem[p + 4] && a[5] == mem[p + 5] && a[6] == mem[p + 6] && a[7] == mem[p + 7]
            else a[0] == ZERO && a[1] == mem[p] && a[2] == mem[p + 1] && a[3] == mem[p + 2] &&
                 a[4] == mem[p + 3] && a[5] == mem[p + 4] && a[6] == mem[p + 5] && a[7] == mem[p + 6]
  {
    AlignedByte(mem, p, 0);
    AlignedByte(mem, p, 1);
    AlignedByte(mem, p, 2);
    AlignedByte(mem, p, 3);
    AlignedByte(mem, p, 4);
    AlignedByte(mem, p, 5);
    AlignedByte(mem, p, 6);
    AlignedByte(mem, p, 7);
  }

  /** What byte i of a tail is. */
  lemma TailByte(mem: seq<Byte>, p: nat, length: seq<Byte>, stamps: seq<Byte>, i: nat)
    requires TailAt(mem, p, length, stamps) && i < 8
    ensures i < |length| ==> mem[p + i] == length[i] && Digit(mem[p + i])
    ensures i == |length| ==> mem[p + i] == COMMA
    ensures |length| < i <= |length| + |stamps| ==>
              mem[p + i] == stamps[i - |length| - 1] && Digit(mem[p + i])
    ensures i == |length| + |stamps| + 1 ==> mem[p + i] == LF
    ensures i == |length| + |stamps| + 2 ==> mem[p + i] != COMMA
  {
    if i < |length| {
      assert mem[p + i] == length[i];
    } else if |length| < i <= |length| + |stamps| {
      assert mem[p + |length| + 1 + (i - |length| - 1)] == stamps[i - |length| - 1];
    }
  }

  /** Reads the two numbers of a row and the position of the next row. */
  method DecodeTail(mem: seq<Byte>, p: nat, ghost lengthDigits: seq<Byte>, ghost stampDigits: seq<Byte>)
    returns (length: Word32, stamps: Word32, next: nat, fast: bool)
    requires TailAt(mem, p, lengthDigits, stampDigits)
    requires Decimal(lengthDigits) < WORD32_LIMIT && Decimal(stampDigits) < WORD32_LIMIT
    ensures length == Decimal(lengthDigits) && stamps == Decimal(stampDigits)
    ensures next == p + |lengthDigits| + |stampDigits| + 2
    ensures fast <==> FastShape(|lengthDigits|, |stampDigits|)
  {
    var a := Align(mem[p..p + 8]);
    var fastNext := if mem[p + 3] == COMMA then p + 6 else p + 5;
    ClassifierIsExact(mem, p, lengthDigits, stampDigits);
    if OneDigitStamp(a) {
      FastValues(mem, p, lengthDigits, stampDigits);
      length := Dot4(-5328, a[0], a[1], a[2], a[3], 100, 10, 1, 0);
      stamps := Dot4(-48, a[4], a[5], a[6], a[7], 1, 0, 0, 0);
      next, fast := fastNext, true;
    } else if TwoDigitStamp(a) {
      FastValues(mem, p, lengthDigits, stampDigits);
      length := Dot4(-5328, a[0], a[1], a[2], a[3], 100, 10, 1, 0);
      stamps := Dot4(-48, a[4], a[5], a[6], a[7], 10, 1, -48, 0);
      next, fast := fastNext + 1, true;
    } else if FourDigitLength(a) {
      FourDigitValues(mem, p, lengthDigits, stampDigits);
      length := Dot4(-53328, a[1], a[2], a[3], a[4], 1000, 100, 10, 1);
      stamps := Dot4(-48, a[5], a[6], a[7], 0, 0, 1, 0, 0);
      next, fast := p + 7, true;
    } else {
      length, next := ScalarNumber(mem, p, COMMA, lengthDigits);
      stamps, next := ScalarNumber(mem, next, LF, stampDigits);
      fast := false;
    }
  }

  lemma NextByte(mem: seq<Byte>, p: nat, delimiter: Byte, digits: seq<Byte>, n: nat)
    requires Digits(digits) && n <= |digits| && p + |digits| < |mem| && mem[p + |digits|] == delimiter
    requires forall i {:trigger digits[i]} :: 0 <= i < |digits| ==> mem[p + i] == digits[i]
    ensures n < |digits| ==> mem[p + n] == digits[n] && Digit(mem[p + n])
    ensures n == |digits| ==> mem[p + n] == delimiter
  {
    if n < |digits| {
      assert mem[p + n] == digits[n];
    }
  }

  /** The scalar loop: digits up to a delimiter, modulo 2^32. */
  method ScalarNumber(mem: seq<Byte>, p: nat, delimiter: Byte, ghost digits: seq<Byte>) returns (x: Word32, next: nat)
    requires !Digit(delimiter) && Digits(digits) && Decimal(digits) < WORD32_LIMIT
    requires p + |digits| < |mem| && mem[p + |digits|] == delimiter
    requires forall i {:trigger digits[i]} :: 0 <= i < |digits| ==> mem[p + i] == digits[i]
    ensures x == Decimal(digits) && next == p + |digits| + 1
  {
    assert digits[..1] == [digits[0]];
    Decimal1(digits[0]);
    x := mem[p] - 48;
    next := p + 1;
    NextByte(mem, p, delimiter, digits, 1);
    while mem[next] != delimiter
      invariant p + 1 <= next <= p + |digits|
      invariant x == Decimal(digits[..next - p])
      invariant next < p + |digits| ==> Digit(mem[next])
      decreases p + |digits| - next
    {
      ghost var n := next - p;
      NextByte(mem, p, delimiter, digits, n);
      assert digits[..n + 1] == digits[..n] + [digits[n]];
      DecimalStep(digits[..n], digits[n]);
      DecimalPrefix(digits, n + 1);
      NextByte(mem, p, delimiter, digits, n + 1);
      x := (x * 10 + (mem[next] - 48)) % WORD32_LIMIT;
      next := next + 1;
    }
    assert digits[..next - p] == digits;
    next := next + 1;
  }

  /** Two or three length digits and one or two stamp digits, with their ASCII bias removed. */
  lemma FastValues(mem: seq<Byte>, p: nat, length: seq<Byte>, stamps: seq<Byte>)
    requires TailAt(mem, p, length, stamps)
    requires (|length| == 2 || |length| == 3) && (|stamps| == 1 || |stamps| == 2)
    ensures var a := Align(mem[p..p + 8]);
            && Dot4(-5328, a[0], a[1], a[2], a[3], 100, 10, 1, 0) == Decimal(length)
            && (|stamps| == 1 ==> Dot4(-48, a[4], a[5], a[6], a[7], 1, 0, 0, 0) == Decimal(stamps))
            && (|stamps| == 2 ==> Dot4(-48, a[4], a[5], a[6], a[7], 10, 1, -48, 0) == Decimal(stamps))
  {
    AlignedBytes(mem, p);
    ClassifierIsExact(mem, p, length, stamps);
    FastLength(mem, p, length, stamps);
    FastStamps(mem, p, length, stamps, Align(mem[p..p + 8]));
    TailByte(mem, p, length, stamps, |length|);
  }

  /** The length, in the bytes that alignment brings to the front. */
  lemma FastLength(mem: seq<Byte>, p: nat, length: seq<Byte>, stamps: seq<Byte>)
    requires TailAt(mem, p, length, stamps) && (|length| == 2 || |length| == 3)
    ensures if |length| == 3 then Dot4(-5328, mem[p], mem[p + 1], mem[p + 2], COMMA, 100, 10, 1, 0) == Decimal(length)
            else Dot4(-5328, ZERO, mem[p], mem[p + 1], COMMA, 100, 10, 1, 0) == Decimal(length)
  {
    TailByte(mem, p, length, stamps, 0);
    TailByte(mem, p, length, stamps, 1);
    if |length| == 2 {
      assert length == [length[0], length[1]];
      Decimal2(length[0], length[1]);
    } else {
      TailByte(mem, p, length, stamps, 2);
      assert length == [length[0], length[1], length[2]];
      Decimal3(length[0], length[1], length[2]);
    }
  }

  /** The stamps, behind the comma, with the line feed behind two of them. */
  lemma FastStamps(mem: seq<Byte>, p: nat, length: seq<Byte>, stamps: seq<Byte>, a: seq<Byte>)
    requires TailAt(mem, p, length, stamps) && (|length| == 2 || |length| == 3) && (|stamps| == 1 || |stamps| == 2)
    requires |a| == 8 && a[4] == mem[p + |length| + 1] && a[5] == mem[p + |length| + 2] && a[6] == mem[p + |length| + 3]
    ensures |stamps| == 1 ==> Dot4(-48, a[4], a[5], a[6], a[7], 1, 0, 0, 0) == Decimal(stamps)
    ensures |stamps| == 2 ==> Dot4(-48, a[4], a[5], a[6], a[7], 10, 1, -48, 0) == Decimal(stamps)
  {
    TailByte(mem, p, length, stamps, |length| + 1);
    if |stamps| == 1 {
      assert stamps == [stamps[0]];
      Decimal1(stamps[0]);
    } else {
      TailByte(mem, p, length, stamps, |length| + 2);
      TailByte(mem, p, length, stamps, |length| + 3);
      assert stamps == [stamps[0], stamps[1]];
      Decimal2(stamps[0], stamps[1]);
    }
  }

  /** Four length digits and one stamp digit; the aligned bytes start with an ASCII zero. */
  lemma FourDigitValues(mem: seq<Byte>, p: nat, length: seq<Byte>, stamps: seq<Byte>)
    requires TailAt(mem, p, length, stamps) && |length| == 4 && |stamps| == 1
    ensures var a := Align(mem[p..p + 8]);
            && Dot4(-53328, a[1], a[2], a[3], a[4], 1000, 100, 10, 1) == Decimal(length)
            && Dot4(-48, a[5], a[6], a[7], 0, 0, 1, 0, 0) == Decimal(stamps)
  {
    AlignedBytes(mem, p);
    ClassifierIsExact(mem, p, length, stamps);
    TailByte(mem, p, length, stamps, 0);
    TailByte(mem, p, length, stamps, 1);
    TailByte(mem, p, length, stamps, 2);
    TailByte(mem, p, length, stamps, 3);
    TailByte(mem, p, length, stamps, 5);
    assert length == [length[0], length[1], length[2], length[3]];
    Decimal4(length[0], length[1], length[2], length[3]);
    assert stamps == [stamps[0]];
    Decimal1(stamps[0]);
  }
}
