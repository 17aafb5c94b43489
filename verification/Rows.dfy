/** Reading one row where it lies in the mapped input, as both parsing loops of the optimized
    C analyzer do before they touch an accumulator. */
module Rows {
  import opened ReferenceFold
  import opened Months
  import opened Csv
  import opened Keys
  import opened Decode

  /** Bytes that a 16-byte probe may read past a row; main maps a guard page there. */
  const GUARD := 16

  /** A row and the byte after it: the next row's first digit, or the zero of the guard page. */
  ghost predicate LineAt(mem: seq<Byte>, p: nat, line: Line) {
    && ValidLine(line)
    && p + |Text(line)| + GUARD <= |mem|
    && Occurs(mem, p, Text(line))
    && mem[p + |Text(line)|] != COMMA
  }

  /** Whole rows followed by the guard bytes or by more rows. */
  ghost predicate LinesAt(mem: seq<Byte>, p: nat, lines: seq<Line>) {
    ValidLines(lines) && BytesAt(mem, p, Body(lines))
  }

  predicate BytesAt(mem: seq<Byte>, p: nat, bytes: seq<Byte>) {
    p + |bytes| + GUARD <= |mem| && Occurs(mem, p, bytes) && mem[p + |bytes|] != COMMA
  }

  lemma OccursSlice(mem: seq<Byte>, p: nat, text: seq<Byte>, i: nat, j: nat)
    requires Occurs(mem, p, text) && i <= j <= |text|
    ensures Occurs(mem, p + i, text[i..j])
  {
    var whole, part := mem[p..p + |text|], mem[p + i..p + j];
    forall k | 0 <= k < j - i ensures part[k] == whole[i + k] {
    }
    assert part == whole[i..j];
  }

  lemma BodySplit(lines: seq<Line>)
    requires |lines| > 0
    ensures var n, body := |Text(lines[0])|, Body(lines);
            && n <= |body| && body[0..n] == Text(lines[0]) && body[n..|body|] == Body(lines[1..])
  {
  }

  /** The first of several rows is a row, followed by the others. */
  lemma FirstLine(mem: seq<Byte>, p: nat, lines: seq<Line>)
    requires LinesAt(mem, p, lines) && |lines| > 0
    ensures LineAt(mem, p, lines[0])
    ensures LinesAt(mem, p + |Text(lines[0])|, lines[1..])
    ensures |Body(lines)| == |Text(lines[0])| + |Body(lines[1..])|
  {
    var n, body, rest := |Text(lines[0])|, Body(lines), Body(lines[1..]);
    BodySplit(lines);
    OccursSlice(mem, p, body, 0, n);
    OccursSlice(mem, p, body, n, |body|);
    if |lines| > 1 {
      FirstByte(lines[1..]);
      assert mem[p + n] == mem[p + n..p + n + |rest|][0];
    }
  }

  /** Rows begin with a digit. */
  lemma FirstByte(lines: seq<Line>)
    requires ValidLines(lines) && |lines| > 0
    ensures |Body(lines)| > 0 && Digit(Body(lines)[0])
  {
  }

  lemma TextParts(line: Line)
    ensures |Text(line)| == |line.timestamp| + |line.channel| + |Tail(line)| + 2
    ensures var t, c := |line.timestamp|, |line.channel|;
            && Text(line)[0..t] == line.timestamp
            && Text(line)[t + 1..t + 1 + c] == line.channel
            && Text(line)[t + 1 + c..t + 2 + c] == [COMMA]
            && Text(line)[t + 2 + c..|Text(line)|] == Tail(line)
  {
  }

  /** Where the parts of a row are. */
  lemma LineParts(mem: seq<Byte>, p: nat, line: Line)
    requires LineAt(mem, p, line)
    ensures Occurs(mem, p, line.timestamp)
    ensures Occurs(mem, p + 11, line.channel)
    ensures Occurs(mem, p + 11 + |line.channel|, [COMMA])
    ensures Occurs(mem, p + 12 + |line.channel|, Tail(line))
    ensures |Text(line)| == 12 + |line.channel| + |Tail(line)|
  {
    var text, c := Text(line), |line.channel|;
    TextParts(line);
    OccursSlice(mem, p, text, 0, 10);
    OccursSlice(mem, p, text, 11, 11 + c);
    OccursSlice(mem, p, text, 11 + c, 12 + c);
    OccursSlice(mem, p, text, 12 + c, |text|);
  }

  // ---- The three parts a loop reads --------------------------------------------------

  /** How a row spells its numbers. */
  datatype Spelling = Spelling(timestamp: seq<Byte>, length: seq<Byte>, stamps: seq<Byte>)

  ghost predicate TimestampAt(mem: seq<Byte>, p: nat, digits: seq<Byte>, month: nat) {
    && |digits| == 10 && Digits(digits) && Occurs(mem, p, digits)
    && InYear(Decimal(digits)) && MonthOf(Decimal(digits)) == Some(month)
  }

  ghost predicate ChannelAt(mem: seq<Byte>, q: nat, channel: Key) {
    && 11 <= q && q + |channel| + GUARD <= |mem|
    && mem[q..q + |channel|] == channel && mem[q + |channel|] == COMMA
    && forall j :: q <= j < q + |channel| ==> mem[j] != COMMA
  }

  ghost predicate NumbersAt(mem: seq<Byte>, q: nat, length: seq<Byte>, stamps: seq<Byte>, row: Row) {
    && TailAt(mem, q, length, stamps)
    && Decimal(length) == row.length < WORD32_LIMIT && Decimal(stamps) == row.stamps < WORD32_LIMIT
  }

  /** What the parsing loops see of the row at p; the next one starts at `next`. */
  ghost predicate RowAt(mem: seq<Byte>, p: nat, row: Row, spelling: Spelling, next: nat) {
    && TimestampAt(mem, p, spelling.timestamp, row.month)
    && ChannelAt(mem, p + 11, row.channel)
    && NumbersAt(mem, p + 11 + |row.channel| + 1, spelling.length, spelling.stamps, row)
    && next == p + 11 + |row.channel| + 1 + |spelling.length| + |spelling.stamps| + 2
  }

  function SpellingOf(line: Line): Spelling { Spelling(line.timestamp, line.length, line.stamps) }

  /** A line of the file is such a row. */
  lemma LineIsRow(mem: seq<Byte>, p: nat, line: Line)
    requires LineAt(mem, p, line)
    ensures RowAt(mem, p, RowOf(line), SpellingOf(line), p + |Text(line)|)
  {
    LineParts(mem, p, line);
    MonthOfMeaning(Decimal(line.timestamp));
    assert TimestampAt(mem, p, line.timestamp, RowOf(line).month);
    LineChannel(mem, p, line);
    LineTail(mem, p, line);
  }

  lemma LineChannel(mem: seq<Byte>, p: nat, line: Line)
    requires LineAt(mem, p, line)
    ensures ChannelAt(mem, p + 11, line.channel)
  {
    LineParts(mem, p, line);
    var q, n := p + 11, |line.channel|;
    assert mem[q + n..q + n + 1] == [COMMA];
    forall j | q <= j < q + n ensures mem[j] != COMMA {
      assert mem[j] == mem[q..q + n][j - q] == line.channel[j - q];
    }
  }

  lemma LineTail(mem: seq<Byte>, p: nat, line: Line)
    requires LineAt(mem, p, line)
    ensures TailAt(mem, p + 12 + |line.channel|, line.length, line.stamps)
  {
  }

  /** The month of the first eight timestamp digits: unsigned subtraction, then the period
      table. */
  method ReadMonth(mem: seq<Byte>, p: nat, monthByPeriod: array<nat>, ghost digits: seq<Byte>, ghost expected: nat)
    returns (month: nat)
    requires TimestampAt(mem, p, digits, expected) && PeriodTable(monthByPeriod[..])
    ensures month == expected < MONTHS
  {
    Timestamp8Value(mem, p, digits);
    PeriodLookup(monthByPeriod[..], Decimal(digits));
    MonthOfMeaning(Decimal(digits));
    var ts100 := Timestamp8(mem, p);
    var delta := ts100 - YEAR_START / 100;
    month := monthByPeriod[delta / 32];
  }

  /** The channel of a row: where it ends, and its hash. */
  method ReadChannel(mem: seq<Byte>, q: nat, crc: (nat, seq<Byte>) -> Word32, ghost channel: Key)
    returns (key: Key, hash: Word32)
    requires ChannelAt(mem, q, channel)
    ensures key == channel && hash == HashKey(channel, crc)
  {
    var length := ChannelLength(mem, q, |channel|);
    HashIsLocal(mem, q, length, crc);
    hash := HashBytes(mem, q, length, crc);
    key := mem[q..q + length];
  }

  /** The numbers of a row, and where the next row starts. */
  method ReadNumbers(mem: seq<Byte>, q: nat, ghost spelling: Spelling, ghost row: Row)
    returns (length: Word32, stamps: Word32, next: nat)
    requires NumbersAt(mem, q, spelling.length, spelling.stamps, row)
    ensures length == row.length && stamps == row.stamps
    ensures next == q + |spelling.length| + |spelling.stamps| + 2
  {
    var fast;
    length, stamps, next, fast := DecodeTail(mem, q, spelling.length, spelling.stamps);
  }

  /** Everything a parsing loop reads of a row. */
  method ReadRow(mem: seq<Byte>, p: nat, monthByPeriod: array<nat>, crc: (nat, seq<Byte>) -> Word32,
                 ghost row: Row, ghost spelling: Spelling, ghost nextRow: nat)
    returns (month: nat, key: Key, hash: Word32, length: Word32, stamps: Word32, next: nat)
    requires RowAt(mem, p, row, spelling, nextRow) && PeriodTable(monthByPeriod[..])
    ensures month == row.month && key == row.channel && hash == HashKey(row.channel, crc)
    ensures length == row.length && stamps == row.stamps && next == nextRow
  {
    month := ReadMonth(mem, p, monthByPeriod, spelling.timestamp, row.month);
    key, hash, length, stamps, next := ReadRest(mem, p, crc, row, spelling, nextRow);
  }

  /** The row behind its timestamp. */
  method ReadRest(mem: seq<Byte>, p: nat, crc: (nat, seq<Byte>) -> Word32, ghost row: Row, ghost spelling: Spelling,
                  ghost nextRow: nat)
    returns (key: Key, hash: Word32, length: Word32, stamps: Word32, next: nat)
    requires RowAt(mem, p, row, spelling, nextRow)
    ensures key == row.channel && hash == HashKey(row.channel, crc)
    ensures length == row.length && stamps == row.stamps && next == nextRow
  {
    key, hash := ReadChannel(mem, p + 11, crc, row.channel);
    length, stamps, next := ReadNumbers(mem, p + 11 + |key| + 1, spelling, row);
  }

  // ---- All rows of a stretch of memory -----------------------------------------------

  /** The rows between `begin` and `end`, one after the other, with the places where they
      start. */
  ghost predicate Laid(mem: seq<Byte>, begin: nat, end: nat, rows: seq<Row>, spellings: seq<Spelling>, spots: seq<nat>) {
    && |spellings| == |rows| && |spots| == |rows| + 1 && spots[0] == begin && spots[|rows|] == end
    && forall k {:trigger spellings[k]} :: 0 <= k < |rows| ==>
         RowAt(mem, spots[k], rows[k], spellings[k], spots[k + 1])
  }

  lemma LaidRow(mem: seq<Byte>, begin: nat, end: nat, rows: seq<Row>, spellings: seq<Spelling>, spots: seq<nat>, k: nat)
    requires Laid(mem, begin, end, rows, spellings, spots) && k < |rows|
    ensures RowAt(mem, spots[k], rows[k], spellings[k], spots[k + 1]) && spots[k] < spots[k + 1]
  {
  }

  lemma {:induction false} LaidBefore(mem: seq<Byte>, begin: nat, end: nat, rows: seq<Row>, spellings: seq<Spelling>,
                                      spots: seq<nat>, k: nat)
    requires Laid(mem, begin, end, rows, spellings, spots) && k <= |rows|
    ensures spots[k] <= end && (spots[k] == end <==> k == |rows|)
    decreases |rows| - k
  {
    if k < |rows| {
      LaidRow(mem, begin, end, rows, spellings, spots, k);
      LaidBefore(mem, begin, end, rows, spellings, spots, k + 1);
    }
  }

  function SpellingsOf(lines: seq<Line>): (r: seq<Spelling>)
    ensures |r| == |lines|
  {
    seq(|lines|, i requires 0 <= i < |lines| => SpellingOf(lines[i]))
  }

  /** The text of valid lines is such a stretch. */
  lemma {:induction false} LinesAreLaid(mem: seq<Byte>, begin: nat, lines: seq<Line>) returns (spots: seq<nat>)
    requires LinesAt(mem, begin, lines)
    ensures Laid(mem, begin, begin + |Body(lines)|, RowsOf(lines), SpellingsOf(lines), spots)
    decreases |lines|
  {
    if |lines| == 0 {
      spots := [begin];
    } else {
      FirstLine(mem, begin, lines);
      var later := LinesAreLaid(mem, begin + |Text(lines[0])|, lines[1..]);
      spots := [begin] + later;
      FirstIsLaid(mem, begin, begin + |Body(lines)|, lines, later);
    }
  }

  /** A row in front of a stretch. */
  lemma FirstIsLaid(mem: seq<Byte>, begin: nat, end: nat, lines: seq<Line>, later: seq<nat>)
    requires |lines| > 0 && ValidLines(lines) && LineAt(mem, begin, lines[0])
    requires Laid(mem, begin + |Text(lines[0])|, end, RowsOf(lines[1..]), SpellingsOf(lines[1..]), later)
    ensures Laid(mem, begin, end, RowsOf(lines), SpellingsOf(lines), [begin] + later)
  {
    LineIsRow(mem, begin, lines[0]);
    RowsTail(lines);
    var spots := [begin] + later;
    assert spots[1..] == later && spots[0] == begin && spots[1] == begin + |Text(lines[0])|;
    LaidCons(mem, begin, end, RowsOf(lines), SpellingsOf(lines), spots);
  }

  lemma RowsTail(lines: seq<Line>)
    requires |lines| > 0 && ValidLines(lines)
    ensures RowsOf(lines)[1..] == RowsOf(lines[1..]) && SpellingsOf(lines)[1..] == SpellingsOf(lines[1..])
    ensures RowsOf(lines)[0] == RowOf(lines[0]) && SpellingsOf(lines)[0] == SpellingOf(lines[0])
  {
  }

  lemma LaidCons(mem: seq<Byte>, begin: nat, end: nat, rows: seq<Row>, spellings: seq<Spelling>, spots: seq<nat>)
    requires |rows| > 0 && |spellings| == |rows| && |spots| == |rows| + 1 && spots[0] == begin
    requires RowAt(mem, begin, rows[0], spellings[0], spots[1])
    requires Laid(mem, spots[1], end, rows[1..], spellings[1..], spots[1..])
    ensures Laid(mem, begin, end, rows, spellings, spots)
  {
  }

  /** Row k of such a stretch. */
  method ReadNext(mem: seq<Byte>, p: nat, monthByPeriod: array<nat>, crc: (nat, seq<Byte>) -> Word32, ghost begin: nat,
                  ghost end: nat, ghost rows: seq<Row>, ghost spellings: seq<Spelling>, ghost spots: seq<nat>, ghost k: nat)
    returns (month: nat, key: Key, hash: Word32, length: Word32, stamps: Word32, next: nat)
    requires Laid(mem, begin, end, rows, spellings, spots) && k < |rows| && p == spots[k]
    requires PeriodTable(monthByPeriod[..])
    ensures month == rows[k].month && key == rows[k].channel && hash == HashKey(key, crc)
    ensures length == rows[k].length && stamps == rows[k].stamps && next == spots[k + 1]
  {
    LaidRow(mem, begin, end, rows, spellings, spots, k);
    month, key, hash, length, stamps, next :=
      ReadRow(mem, p, monthByPeriod, crc, rows[k], spellings[k], spots[k + 1]);
  }

  // ---- Cutting a stretch after a line feed -------------------------------------------

  /** Just behind the first line feed (10) from `target` on, or the end when there is none. */
  ghost predicate FirstCut(mem: seq<Byte>, target: nat, end: nat, cut: nat) {
    && target <= cut <= end <= |mem| && (cut == end || (cut > target && mem[cut - 1] == 10))
    && forall j :: target <= j < cut - 1 ==> mem[j] != 10
  }

  /** memchr */
  method FindLineFeed(mem: seq<Byte>, from: nat, end: nat) returns (at: Option<nat>)
    requires from <= end <= |mem|
    ensures at.Some? ==> from <= at.value < end && mem[at.value] == LF
    ensures at.Some? ==> forall j :: from <= j < at.value ==> mem[j] != LF
    ensures at.None? ==> forall j :: from <= j < end ==> mem[j] != LF
  {
    var p := from;
    while p < end
      invariant from <= p <= end
      invariant forall j :: from <= j < p ==> mem[j] != LF
    {
      if mem[p] == LF {
        return Some(p);
      }
      p := p + 1;
    }
    at := None;
  }

  /** A position just after a line feed, or the end, separates whole rows. */
  lemma CutLines(mem: seq<Byte>, p: nat, lines: seq<Line>, cut: nat) returns (k: nat)
    requires LinesAt(mem, p, lines) && p < cut <= p + |Body(lines)| && mem[cut - 1] == LF
    ensures 0 < k <= |lines|
    ensures LinesAt(mem, p, lines[..k]) && cut == p + |Body(lines[..k])|
    ensures LinesAt(mem, cut, lines[k..]) && cut + |Body(lines[k..])| == p + |Body(lines)|
  {
    var body, n := Body(lines), cut - p;
    assert mem[cut - 1] == mem[p..p + |body|][n - 1];
    k := CutAtLineFeed(lines, n);
    HalvesAt(mem, p, body, n, lines[..k], lines[k..]);
  }

  lemma HalvesAt(mem: seq<Byte>, p: nat, body: seq<Byte>, n: nat, front: seq<Line>, back: seq<Line>)
    requires BytesAt(mem, p, body) && 0 < n <= |body|
    requires ValidLines(front) && ValidLines(back) && Body(front) == body[..n] && Body(back) == body[n..]
    ensures LinesAt(mem, p, front) && |Body(front)| == n
    ensures LinesAt(mem, p + n, back) && n + |Body(back)| == |body|
  {
    BackAt(mem, p, body, n, Body(back));
    NextIsNoComma(mem, p + n, back);
    FrontAt(mem, p, body, n, Body(front));
  }

  lemma FrontAt(mem: seq<Byte>, p: nat, body: seq<Byte>, n: nat, front: seq<Byte>)
    requires BytesAt(mem, p, body) && n <= |body| && front == body[..n] && mem[p + n] != COMMA
    ensures BytesAt(mem, p, front) && |front| == n
  {
  }

  lemma BackAt(mem: seq<Byte>, p: nat, body: seq<Byte>, n: nat, back: seq<Byte>)
    requires BytesAt(mem, p, body) && n <= |body| && back == body[n..]
    ensures BytesAt(mem, p + n, back) && n + |back| == |body|
  {
  }

  lemma NextIsNoComma(mem: seq<Byte>, cut: nat, lines: seq<Line>)
    requires ValidLines(lines) && BytesAt(mem, cut, Body(lines))
    ensures mem[cut] != COMMA
  {
  }

  /** The last byte of whole rows is a line feed. */
  lemma {:induction false} LastByte(lines: seq<Line>)
    requires ValidLines(lines) && |lines| > 0
    ensures |Body(lines)| > 0 && Body(lines)[|Body(lines)| - 1] == LF
  {
    if |lines| > 1 {
      LastByte(lines[1..]);
    } else {
      BodySingle(lines[0]);
      assert lines == [lines[0]];
      LineFeeds(lines[0], |Text(lines[0])| - 1);
    }
  }

  lemma RowsOfSplit(lines: seq<Line>, j: nat)
    requires ValidLines(lines) && j <= |lines|
    ensures RowsOf(lines[..j]) + RowsOf(lines[j..]) == RowsOf(lines)
  {
  }

  lemma RowsOfConcat(a: seq<Line>, b: seq<Line>)
    requires ValidLines(a) && ValidLines(b)
    ensures ValidLines(a + b) && RowsOf(a + b) == RowsOf(a) + RowsOf(b)
  {
  }

  lemma EmptyBody(lines: seq<Line>)
    requires ValidLines(lines) && |Body(lines)| == 0
    ensures lines == []
  {
  }
}
