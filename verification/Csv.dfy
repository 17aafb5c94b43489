/** The text of the contest's CSV body and the rows it stands for. */
module Csv {
  import opened ReferenceFold
  import opened Months

  const COMMA: Byte := 44
  const LF: Byte := 10
  const ZERO: Byte := 48

  predicate Digit(b: Byte) { 48 <= b <= 57 }

  predicate Digits(s: seq<Byte>) { |s| > 0 && forall i :: 0 <= i < |s| ==> Digit(s[i]) }

  /** The number a digit string spells; leading zeros are allowed. */
  function Decimal(s: seq<Byte>): nat
    requires forall i :: 0 <= i < |s| ==> Digit(s[i])
  {
    if |s| == 0 then 0
    else
      assert Digit(s[|s| - 1]);
      10 * Decimal(s[..|s| - 1]) + (s[|s| - 1] - ZERO)
  }

  datatype Line = Line(timestamp: seq<Byte>, channel: Key, length: seq<Byte>, stamps: seq<Byte>)

  /** At most five levels of twenty bytes joined by slashes. */
  const MAX_CHANNEL_BYTES := 104

  /** The published guarantees for one row. */
  predicate ValidLine(l: Line) {
    && |l.timestamp| == 10 && Digits(l.timestamp) && InYear(Decimal(l.timestamp))
    && 1 <= |l.channel| <= MAX_CHANNEL_BYTES
    && (forall i :: 0 <= i < |l.channel| ==> l.channel[i] != COMMA && l.channel[i] != LF)
    && Digits(l.length) && 1 <= Decimal(l.length) < WORD32_LIMIT
    && Digits(l.stamps) && Decimal(l.stamps) < WORD32_LIMIT
  }

  predicate ValidLines(lines: seq<Line>) { forall i :: 0 <= i < |lines| ==> ValidLine(lines[i]) }

  function Tail(l: Line): seq<Byte> { l.length + [COMMA] + l.stamps + [LF] }

  function Text(l: Line): seq<Byte> { l.timestamp + [COMMA] + l.channel + [COMMA] + Tail(l) }

  function Body(lines: seq<Line>): seq<Byte> {
    if |lines| == 0 then [] else Text(lines[0]) + Body(lines[1..])
  }

  /** The row a line stands for. */
  function RowOf(l: Line): Row
    requires ValidLine(l)
  {
    MonthOfMeaning(Decimal(l.timestamp));
    Row(l.channel, MonthOf(Decimal(l.timestamp)).value, Decimal(l.length), Decimal(l.stamps))
  }

  function RowsOf(lines: seq<Line>): (rows: seq<Row>)
    requires ValidLines(lines)
    ensures |rows| == |lines|
    ensures forall i :: 0 <= i < |rows| ==> rows[i] == RowOf(lines[i])
  {
    seq(|lines|, i requires 0 <= i < |lines| => RowOf(lines[i]))
  }

  /** `text` occurs in memory at p. */
  predicate Occurs(mem: seq<Byte>, p: nat, text: seq<Byte>) {
    p + |text| <= |mem| && mem[p..p + |text|] == text
  }

  lemma DecimalStep(s: seq<Byte>, d: Byte)
    requires (forall i :: 0 <= i < |s| ==> Digit(s[i])) && Digit(d)
    ensures Decimal(s + [d]) == 10 * Decimal(s) + (d - ZERO)
  {
  }

  lemma {:induction false} DecimalPrefix(s: seq<Byte>, n: nat)
    requires n <= |s| && forall i :: 0 <= i < |s| ==> Digit(s[i])
    ensures Decimal(s[..n]) <= Decimal(s)
    decreases |s| - n
  {
    if n < |s| {
      DecimalPrefix(s, n + 1);
      assert s[..n + 1] == s[..n] + [s[n]];
      DecimalStep(s[..n], s[n]);
    } else {
      assert s[..n] == s;
    }
  }

  // ---- Lines and positions -----------------------------------------------------------

  lemma Assoc(a: seq<Byte>, b: seq<Byte>, c: seq<Byte>)
    ensures a + (b + c) == (a + b) + c
  {
  }

  lemma BodyCons(l: Line, rest: seq<Line>)
    ensures Body([l] + rest) == Text(l) + Body(rest)
  {
  }

  lemma {:induction false} BodyConcat(a: seq<Line>, b: seq<Line>)
    ensures Body(a + b) == Body(a) + Body(b)
  {
    if |a| == 0 {
      assert a + b == b;
    } else {
      var first, rest := a[0], a[1..];
      BodyConcat(rest, b);
      assert a == [first] + rest && a + b == [first] + (rest + b);
      BodyCons(first, rest);
      BodyCons(first, rest + b);
      Assoc(Text(first), Body(rest), Body(b));
    }
  }

  lemma BodySingle(l: Line)
    ensures Body([l]) == Text(l)
  {
  }

  /** The only line feed of a line is its last byte. */
  lemma LineFeeds(l: Line, i: nat)
    requires ValidLine(l) && i < |Text(l)|
    ensures Text(l)[i] == LF <==> i == |Text(l)| - 1
  {
  }

  /** A cut just after a line feed, or at the start, separates whole lines. */
  lemma {:induction false} CutAtLineFeed(lines: seq<Line>, cut: nat) returns (k: nat)
    requires ValidLines(lines) && cut <= |Body(lines)|
    requires cut == 0 || Body(lines)[cut - 1] == LF
    ensures k <= |lines| && Body(lines[..k]) == Body(lines)[..cut] && Body(lines[k..]) == Body(lines)[cut..]
  {
    if cut == 0 {
      k := 0;
      assert lines[..0] == [] && lines[0..] == lines;
    } else {
      var first, rest := Text(lines[0]), lines[1..];
      assert cut <= |first| ==> Body(lines)[cut - 1] == first[cut - 1];
      if cut < |first| {
        LineFeeds(lines[0], cut - 1);
        assert false;
      }
      assert cut > |first| ==> Body(lines)[cut - 1] == Body(rest)[cut - |first| - 1];
      var j := CutAtLineFeed(rest, cut - |first|);
      k := j + 1;
      CutJoin(lines, cut, j);
    }
  }

  lemma CutJoin(lines: seq<Line>, cut: nat, j: nat)
    requires |lines| > 0 && j < |lines| && |Text(lines[0])| <= cut <= |Body(lines)|
    requires Body(lines[1..][..j]) == Body(lines[1..])[..cut - |Text(lines[0])|]
    requires Body(lines[1..][j..]) == Body(lines[1..])[cut - |Text(lines[0])|..]
    ensures Body(lines[..j + 1]) == Body(lines)[..cut] && Body(lines[j + 1..]) == Body(lines)[cut..]
  {
    var first, rest := lines[0], lines[1..];
    assert lines[..j + 1] == [first] + rest[..j] && lines[j + 1..] == rest[j..];
    BodyCons(first, rest[..j]);
    CutSum(Text(first), Body(rest), cut);
  }

  lemma CutSum(a: seq<Byte>, b: seq<Byte>, cut: nat)
    requires |a| <= cut <= |a + b|
    ensures (a + b)[..cut] == a + b[..cut - |a|] && (a + b)[cut..] == b[cut - |a|..]
  {
  }
}
