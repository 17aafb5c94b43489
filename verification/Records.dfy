/** The output file: what the optimized C analyzer writes, and that the contest's comparison reads it
    back. */
module Records {
  import opened ReferenceFold
  import opened Collections
  import opened Cells
  import opened Tables
  import opened Csv
  import opened Printing
  import opened Rounding
  import opened Loader

  /** month_label: "2027-01" to "2027-12". */
  function Label(month: nat): seq<Byte>
    requires month < MONTHS
  {
    [50, 48, 50, 55, 45, 48 + (month + 1) / 10, 48 + (month + 1) % 10]
  }

  function RecordKey(channel: Key, month: nat): seq<Byte>
    requires month < MONTHS
  {
    channel + [COMMA] + Label(month)
  }

  /** Means are printed for groups whose lengths are at least one, in 32 bits. */
  predicate Printable(a: Acc) {
    && 1 <= a.count <= a.total < WORD32_LIMIT
    && a.min < WORD32_LIMIT && a.max < WORD32_LIMIT && a.stamps < WORD32_LIMIT
  }

  function RecordValue(a: Acc): seq<Byte>
    requires Printable(a)
  {
    var cents := FormatFixed2Cents(Divide(a.total, a.count));
    Numeral(a.min) + ([SLASH] + (Numeral(cents / 100) + ([POINT] + (PadTwo(cents % 100) + ([SLASH] +
      (Numeral(a.max) + ([SLASH] + (Numeral(a.count) + ([SLASH] + Numeral(a.stamps))))))))))
  }

  function RecordLine(key: seq<Byte>, value: seq<Byte>): seq<Byte> { key + [EQUALS] + value + [LF] }

  // ---- Reading back ------------------------------------------------------------------

  lemma PadTwoIsTwo(cents: nat)
    ensures Digits(PadTwo(cents % 100)) && |PadTwo(cents % 100)| == 2
  {
    PadTwoDigits(cents);
  }

  /** What is printed matches the pattern the comparison demands. */
  lemma ValueMatches(a: Acc)
    requires Printable(a)
    ensures MatchesValue(RecordValue(a))
  {
    var cents := FormatFixed2Cents(Divide(a.total, a.count));
    NumeralMeaning(a.min);
    NumeralMeaning(cents / 100);
    PadTwoIsTwo(cents);
    NumeralMeaning(a.max);
    NumeralMeaning(a.count);
    NumeralMeaning(a.stamps);
    var count := Numeral(a.count) + ([SLASH] + Numeral(a.stamps));
    var max := Numeral(a.max) + ([SLASH] + count);
    var decimals := PadTwo(cents % 100) + ([SLASH] + max);
    var mean := Numeral(cents / 100) + ([POINT] + decimals);
    RunOf(Numeral(a.min), SLASH, mean);
    RunOf(Numeral(cents / 100), POINT, decimals);
    RunOf(PadTwo(cents % 100), SLASH, max);
    RunOf(Numeral(a.max), SLASH, count);
    RunOf(Numeral(a.count), SLASH, Numeral(a.stamps));
    DropRun(Numeral(a.stamps), []);
    assert Numeral(a.stamps) + [] == Numeral(a.stamps);
  }

  // ---- A whole file ------------------------------------------------------------------

  datatype Pair = Pair(key: seq<Byte>, value: seq<Byte>)

  predicate Visible(s: seq<Byte>) { forall i :: 0 <= i < |s| ==> s[i] != LF && s[i] != CR }

  /** A key without an equals sign, a value of the demanded form, both without line breaks. */
  predicate PairOk(p: Pair) {
    && |p.key| > 0 && Visible(p.key) && (forall i :: 0 <= i < |p.key| ==> p.key[i] != EQUALS)
    && |p.value| > 0 && Visible(p.value) && MatchesValue(p.value)
  }

  ghost predicate PairsOk(pairs: seq<Pair>) {
    && (forall i :: 0 <= i < |pairs| ==> PairOk(pairs[i]))
    && (forall i, j :: 0 <= i < j < |pairs| ==> pairs[i].key != pairs[j].key)
  }

  function TextOf(pairs: seq<Pair>): seq<Byte> {
    if |pairs| == 0 then [] else RecordLine(pairs[0].key, pairs[0].value) + TextOf(pairs[1..])
  }

  /** The first line of a file. */
  lemma SplitFirst(line: seq<Byte>, rest: seq<Byte>)
    requires forall i :: 0 <= i < |line| ==> line[i] != LF
    ensures SplitLines(line + [LF] + rest) == [line] + SplitLines(rest)
  {
    var text := line + [LF] + rest;
    IndexOfFirst(text, LF, |line|);
    assert text[..|line|] == line && text[|line| + 1..] == rest;
  }

  /** A printed line is read back as its key and value. */
  lemma LoadPrinted(p: Pair, records: map<seq<Byte>, seq<Byte>>)
    requires PairOk(p) && p.key !in records
    ensures LoadLine(p.key + [EQUALS] + p.value, records) == Records(records[p.key := p.value])
  {
    var line := p.key + [EQUALS] + p.value;
    IndexOfFirst(line, EQUALS, |p.key|);
    assert line[..|p.key|] == p.key && line[|p.key| + 1..] == p.value;
  }

  function Added(records: map<seq<Byte>, seq<Byte>>, pairs: seq<Pair>): map<seq<Byte>, seq<Byte>>
    decreases |pairs|
  {
    if |pairs| == 0 then records else Added(records[pairs[0].key := pairs[0].value], pairs[1..])
  }

  ghost predicate NewKeys(records: map<seq<Byte>, seq<Byte>>, pairs: seq<Pair>) {
    forall i :: 0 <= i < |pairs| ==> pairs[i].key !in records
  }

  /** Every line of a printed file is accepted. */
  lemma {:induction false} LoadsBack(pairs: seq<Pair>, records: map<seq<Byte>, seq<Byte>>)
    requires PairsOk(pairs) && NewKeys(records, pairs)
    ensures LoadAll(SplitLines(TextOf(pairs)), records) == Records(Added(records, pairs))
    decreases |pairs|
  {
    if |pairs| > 0 {
      var p, rest := pairs[0], pairs[1..];
      var line := p.key + [EQUALS] + p.value;
      assert PairOk(p);
      VisibleConcat(p.key, [EQUALS]);
      VisibleConcat(p.key + [EQUALS], p.value);
      SplitFirst(line, TextOf(rest));
      LoadPrinted(p, records);
      LoadsBack(rest, records[p.key := p.value]);
      assert ([line] + SplitLines(TextOf(rest)))[1..] == SplitLines(TextOf(rest));
    }
  }

  lemma {:induction false} AddedMeaning(records: map<seq<Byte>, seq<Byte>>, pairs: seq<Pair>, key: seq<Byte>)
    requires PairsOk(pairs) && NewKeys(records, pairs)
    ensures key in Added(records, pairs) <==> key in records || exists i :: 0 <= i < |pairs| && pairs[i].key == key
    ensures key in records ==> key in Added(records, pairs) && Added(records, pairs)[key] == records[key]
    ensures forall i :: 0 <= i < |pairs| && pairs[i].key == key ==>
              key in Added(records, pairs) && Added(records, pairs)[key] == pairs[i].value
    decreases |pairs|
  {
    if |pairs| > 0 {
      AddedMeaning(records[pairs[0].key := pairs[0].value], pairs[1..], key);
      assert forall i :: 0 < i < |pairs| ==> pairs[i] == pairs[1..][i - 1];
    }
  }

  // ---- The printed groups ------------------------------------------------------------

  /** One printed group. */
  datatype Rec = Rec(channel: Key, month: nat, acc: Acc)

  predicate CleanChannel(c: Key) { forall i :: 0 <= i < |c| ==> c[i] != EQUALS && c[i] != LF && c[i] != CR }

  predicate RecOk(r: Rec) { |r.channel| > 0 && CleanChannel(r.channel) && r.month < MONTHS && Printable(r.acc) }

  function PairOf(r: Rec): Pair
    requires RecOk(r)
  {
    Pair(RecordKey(r.channel, r.month), RecordValue(r.acc))
  }

  function PairsOf(recs: seq<Rec>): (pairs: seq<Pair>)
    requires forall i :: 0 <= i < |recs| ==> RecOk(recs[i])
    ensures |pairs| == |recs|
  {
    seq(|recs|, i requires 0 <= i < |recs| => PairOf(recs[i]))
  }

  lemma VisibleConcat(a: seq<Byte>, b: seq<Byte>)
    requires Visible(a) && Visible(b)
    ensures Visible(a + b)
  {
  }

  /** No line break occurs inside a value. */
  lemma ValueVisible(a: Acc)
    requires Printable(a)
    ensures Visible(RecordValue(a)) && |RecordValue(a)| >= 2
  {
    var cents := FormatFixed2Cents(Divide(a.total, a.count));
    NumeralMeaning(a.min);
    NumeralMeaning(cents / 100);
    PadTwoIsTwo(cents);
    NumeralMeaning(a.max);
    NumeralMeaning(a.count);
    NumeralMeaning(a.stamps);
    var count := Numeral(a.count) + ([SLASH] + Numeral(a.stamps));
    VisibleConcat([SLASH], Numeral(a.stamps));
    VisibleConcat(Numeral(a.count), [SLASH] + Numeral(a.stamps));
    var max := Numeral(a.max) + ([SLASH] + count);
    VisibleConcat([SLASH], count);
    VisibleConcat(Numeral(a.max), [SLASH] + count);
    var decimals := PadTwo(cents % 100) + ([SLASH] + max);
    VisibleConcat([SLASH], max);
    VisibleConcat(PadTwo(cents % 100), [SLASH] + max);
    var mean := Numeral(cents / 100) + ([POINT] + decimals);
    VisibleConcat([POINT], decimals);
    VisibleConcat(Numeral(cents / 100), [POINT] + decimals);
    VisibleConcat([SLASH], mean);
    VisibleConcat(Numeral(a.min), [SLASH] + mean);
  }

  lemma KeyVisible(c: Key, m: nat)
    requires CleanChannel(c) && m < MONTHS
    ensures Visible(RecordKey(c, m)) && forall i :: 0 <= i < |RecordKey(c, m)| ==> RecordKey(c, m)[i] != EQUALS
  {
  }

  lemma PairOfOk(r: Rec)
    requires RecOk(r)
    ensures PairOk(PairOf(r))
  {
    KeyVisible(r.channel, r.month);
    ValueVisible(r.acc);
    ValueMatches(r.acc);
  }

  /** Each group is printed once. */
  ghost predicate DistinctGroups(recs: seq<Rec>) {
    forall i, j :: 0 <= i < j < |recs| ==> recs[i].channel != recs[j].channel || recs[i].month != recs[j].month
  }

  lemma PairsOfOk(recs: seq<Rec>)
    requires (forall i :: 0 <= i < |recs| ==> RecOk(recs[i])) && DistinctGroups(recs)
    ensures PairsOk(PairsOf(recs))
  {
    var pairs := PairsOf(recs);
    forall i | 0 <= i < |pairs| ensures PairOk(pairs[i]) {
      PairOfOk(recs[i]);
    }
    forall i, j | 0 <= i < j < |pairs| ensures pairs[i].key != pairs[j].key {
      if pairs[i].key == pairs[j].key {
        RecordKeySays(recs[i].channel, recs[i].month);
        RecordKeySays(recs[j].channel, recs[j].month);
        KeyInjective(pairs[i].key, recs[i].channel, recs[i].month, recs[j].channel, recs[j].month);
      }
    }
  }

  /** The output of an analyzer parses back to exactly one record per printed group. */
  lemma OutputLoadsBack(recs: seq<Rec>) returns (records: map<seq<Byte>, seq<Byte>>)
    requires (forall i :: 0 <= i < |recs| ==> RecOk(recs[i])) && DistinctGroups(recs)
    ensures LoadAll(SplitLines(TextOf(PairsOf(recs))), map[]) == Records(records)
    ensures Loads(recs, records)
  {
    var pairs := PairsOf(recs);
    PairsOfOk(recs);
    LoadsBack(pairs, map[]);
    records := Added(map[], pairs);
    forall i | 0 <= i < |recs|
      ensures PairOf(recs[i]).key in records && records[PairOf(recs[i]).key] == PairOf(recs[i]).value
    {
      AddedMeaning(map[], pairs, pairs[i].key);
    }
    forall key | key in records ensures exists i :: 0 <= i < |recs| && PairOf(recs[i]).key == key {
      AddedMeaning(map[], pairs, key);
      var i :| 0 <= i < |pairs| && pairs[i].key == key;
      assert PairOf(recs[i]).key == key;
    }
  }

  // ---- What a line says --------------------------------------------------------------

  /** A number without a leading zero. */
  ghost predicate Plain(s: seq<Byte>, x: nat) { Digits(s) && Decimal(s) == x && (s[0] == 48 ==> |s| == 1) }

  /** Year, dash (45) and month. */
  ghost predicate MonthSays(s: seq<Byte>, month: nat) {
    && |s| == 7 && Digits(s[..4]) && Decimal(s[..4]) == 2027 && s[4] == 45
    && Digits(s[5..]) && Decimal(s[5..]) == month + 1
  }

  /** Channel, comma (44) and month. */
  ghost predicate KeySays(key: seq<Byte>, channel: Key, month: nat) {
    && |key| == |channel| + 8 && key[..|channel|] == channel && key[|channel|] == 44
    && MonthSays(key[|channel| + 1..], month)
  }

  /** Least length, mean to two decimals, greatest length, count and stamps. */
  ghost predicate FieldsSay(f: Fields, a: Acc) {
    && (Digits(f.min) && Digits(f.whole) && Digits(f.cents) && Digits(f.max) && Digits(f.count) && Digits(f.stamps))
    && Plain(f.min, a.min) && Plain(f.max, a.max) && Plain(f.count, a.count) && Plain(f.stamps, a.stamps)
    && Plain(f.whole, Decimal(f.whole)) && IsMean(100 * Decimal(f.whole) + Decimal(f.cents), a.total, a.count)
  }

  ghost predicate ValueSays(value: seq<Byte>, a: Acc) { exists f: Fields :: Spells(f, value) && FieldsSay(f, a) }

  /** Key, equals sign (61), value and line feed (10). */
  ghost predicate LineSays(line: seq<Byte>, r: Rec) {
    exists key, value :: line == key + [61] + value + [10] && KeySays(key, r.channel, r.month) && ValueSays(value, r.acc)
  }

  lemma NumeralIsPlain(x: nat)
    ensures Plain(Numeral(x), x)
  {
    NumeralMeaning(x);
    if x < 10 {
      assert |Numeral(x)| == 1;
    }
  }

  lemma LabelSays(month: nat)
    requires month < MONTHS
    ensures MonthSays(Label(month), month)
  {
    var s, tens, ones := Label(month), 48 + (month + 1) / 10, 48 + (month + 1) % 10;
    assert s[..4] == [50, 48, 50, 55] && s[5..] == [tens, ones];
    FourDigits(50, 48, 50, 55);
    TwoDigits(tens, ones);
  }

  lemma TwoDigits(a: Byte, b: Byte)
    requires Digit(a) && Digit(b)
    ensures Digits([a, b]) && Decimal([a, b]) == 10 * (a - 48) + (b - 48)
  {
    DecimalStep([], a);
    assert [] + [a] == [a] && [a] + [b] == [a, b];
    DecimalStep([a], b);
  }

  lemma FourDigits(a: Byte, b: Byte, c: Byte, d: Byte)
    requires Digit(a) && Digit(b) && Digit(c) && Digit(d)
    ensures Digits([a, b, c, d])
    ensures Decimal([a, b, c, d]) == 1000 * (a - 48) + 100 * (b - 48) + 10 * (c - 48) + (d - 48)
  {
    TwoDigits(a, b);
    DecimalStep([a, b], c);
    assert [a, b] + [c] == [a, b, c] && [a, b, c] + [d] == [a, b, c, d];
    DecimalStep([a, b, c], d);
  }

  lemma RecordKeySays(channel: Key, month: nat)
    requires month < MONTHS
    ensures KeySays(RecordKey(channel, month), channel, month)
  {
    var key := RecordKey(channel, month);
    LabelSays(month);
    assert key[..|channel|] == channel && key[|channel| + 1..] == Label(month);
  }

  lemma CentsSay(cents: nat)
    ensures Digits(PadTwo(cents % 100)) && Decimal(PadTwo(cents % 100)) == cents % 100
  {
    PadTwoDigits(cents);
    TwoDigits(48 + cents / 10 % 10, 48 + cents % 10);
    SplitHundred(cents, cents / 10 % 10, cents % 10);
  }

  lemma SplitHundred(cents: nat, tens: nat, ones: nat)
    requires tens == cents / 10 % 10 && ones == cents % 10
    ensures 10 * tens + ones == cents % 100
  {
  }

  lemma RecordValueSays(a: Acc)
    requires Printable(a)
    ensures ValueSays(RecordValue(a), a)
  {
    var cents := FormatFixed2Cents(Divide(a.total, a.count));
    var f := Fields(Numeral(a.min), Numeral(cents / 100), PadTwo(cents % 100), Numeral(a.max), Numeral(a.count),
                    Numeral(a.stamps));
    NumeralIsPlain(a.min);
    NumeralIsPlain(cents / 100);
    NumeralIsPlain(a.max);
    NumeralIsPlain(a.count);
    NumeralIsPlain(a.stamps);
    CentsSay(cents);
    PadTwoIsTwo(cents);
    CentsAreMean(a.total, a.count);
    assert 100 * (cents / 100) + cents % 100 == cents;
    assert Spells(f, RecordValue(a)) && FieldsSay(f, a);
  }

  /** The printed line says which group it is of, and the group's numbers. */
  lemma RecordSays(r: Rec)
    requires RecOk(r)
    ensures LineSays(RecordLine(PairOf(r).key, PairOf(r).value), r)
  {
    RecordKeySays(r.channel, r.month);
    RecordValueSays(r.acc);
  }

  /** Lines in the order of these groups, each saying what its group holds. */
  ghost predicate LinesSay(lines: seq<seq<Byte>>, recs: seq<Rec>) {
    |lines| == |recs| && forall i :: 0 <= i < |lines| ==> LineSays(lines[i], recs[i])
  }

  function Concat(lines: seq<seq<Byte>>): seq<Byte> { if |lines| == 0 then [] else lines[0] + Concat(lines[1..]) }

  ghost predicate FileSays(file: seq<Byte>, recs: seq<Rec>) {
    exists lines: seq<seq<Byte>> :: file == Concat(lines) && LinesSay(lines, recs)
  }

  lemma {:induction false} TextSays(recs: seq<Rec>) returns (lines: seq<seq<Byte>>)
    requires forall i :: 0 <= i < |recs| ==> RecOk(recs[i])
    ensures TextOf(PairsOf(recs)) == Concat(lines) && LinesSay(lines, recs)
  {
    lines := [];
    if |recs| > 0 {
      var rest := TextSays(recs[1..]);
      lines := TextNext(recs, rest);
    }
  }

  lemma TextNext(recs: seq<Rec>, rest: seq<seq<Byte>>) returns (lines: seq<seq<Byte>>)
    requires |recs| > 0 && forall i :: 0 <= i < |recs| ==> RecOk(recs[i])
    requires TextOf(PairsOf(recs[1..])) == Concat(rest) && LinesSay(rest, recs[1..])
    ensures TextOf(PairsOf(recs)) == Concat(lines) && LinesSay(lines, recs)
  {
    var pair := PairOf(recs[0]);
    PairsTail(recs);
    lines := ConcatNext(PairsOf(recs), pair, rest);
    RecordSays(recs[0]);
    LinesNext(RecordLine(pair.key, pair.value), rest, recs);
  }

  lemma PairsTail(recs: seq<Rec>)
    requires |recs| > 0 && forall i :: 0 <= i < |recs| ==> RecOk(recs[i])
    ensures PairsOf(recs)[0] == PairOf(recs[0]) && PairsOf(recs)[1..] == PairsOf(recs[1..])
  {
  }

  lemma ConcatNext(pairs: seq<Pair>, pair: Pair, rest: seq<seq<Byte>>) returns (lines: seq<seq<Byte>>)
    requires |pairs| > 0 && pairs[0] == pair && TextOf(pairs[1..]) == Concat(rest)
    ensures lines == [RecordLine(pair.key, pair.value)] + rest && TextOf(pairs) == Concat(lines)
  {
    lines := [RecordLine(pair.key, pair.value)] + rest;
    assert lines[1..] == rest;
  }

  lemma LinesNext(line: seq<Byte>, rest: seq<seq<Byte>>, recs: seq<Rec>)
    requires |recs| > 0 && LineSays(line, recs[0]) && LinesSay(rest, recs[1..])
    ensures LinesSay([line] + rest, recs)
  {
    var lines := [line] + rest;
    forall i | 0 <= i < |lines| ensures LineSays(lines[i], recs[i]) {
      if i > 0 {
        assert LineSays(rest[i - 1], recs[1..][i - 1]);
      }
    }
  }

  /** A number has one plain numeral. */
  lemma {:induction false} PlainIsUnique(s: seq<Byte>, t: seq<Byte>, x: nat)
    requires Plain(s, x) && Plain(t, x)
    ensures s == t
    decreases |s|
  {
    var p, q := s[..|s| - 1], t[..|t| - 1];
    LastDigit(s);
    LastDigit(t);
    if |s| > 1 && |t| > 1 {
      PlainIsUnique(p, q, x / 10);
    } else if |s| > 1 {
      PlainPositive(p);
    } else if |t| > 1 {
      PlainPositive(q);
    }
    assert s == p + [s[|s| - 1]] && t == q + [t[|t| - 1]];
  }

  lemma LastDigit(s: seq<Byte>)
    requires Digits(s) && Plain(s, Decimal(s))
    ensures var p := s[..|s| - 1];
            && Decimal(s) % 10 == s[|s| - 1] - 48 && Decimal(s) / 10 == Decimal(p)
            && (|s| > 1 ==> Plain(p, Decimal(p)) && p[0] != 48)
  {
  }

  lemma {:induction false} PlainPositive(s: seq<Byte>)
    requires Digits(s) && s[0] != 48
    ensures Decimal(s) >= 1
  {
    if |s| > 1 {
      PlainPositive(s[..|s| - 1]);
    } else {
      assert s[..0] == [];
    }
  }

  /** A key determines its group. */
  lemma KeyInjective(key: seq<Byte>, c: Key, m: nat, d: Key, n: nat)
    requires KeySays(key, c, m) && KeySays(key, d, n)
    ensures c == d && m == n
  {
    assert |c| == |d|;
    assert c == key[..|c|] && d == key[..|d|];
  }

  /** Digit strings of one length are equal when their numbers are. */
  lemma {:induction false} DecimalOnce(s: seq<Byte>, t: seq<Byte>)
    requires |s| == |t| && (forall i :: 0 <= i < |s| ==> Digit(s[i]) && Digit(t[i])) && Decimal(s) == Decimal(t)
    ensures s == t
    decreases |s|
  {
    if |s| > 0 {
      var p, q := s[..|s| - 1], t[..|t| - 1];
      LastDigits(Decimal(p), s[|s| - 1], Decimal(q), t[|t| - 1]);
      DecimalOnce(p, q);
      assert s == p + [s[|s| - 1]] && t == q + [t[|t| - 1]];
    }
  }

  lemma LastDigits(x: nat, a: Byte, y: nat, b: Byte)
    requires Digit(a) && Digit(b) && 10 * x + (a - 48) == 10 * y + (b - 48)
    ensures x == y && a == b
  {
  }

  /** A group has one key. */
  lemma KeySaysOnce(key: seq<Byte>, other: seq<Byte>, channel: Key, month: nat)
    requires KeySays(key, channel, month) && KeySays(other, channel, month)
    ensures key == other
  {
    var n := |channel|;
    var s, t := key[n + 1..], other[n + 1..];
    DecimalOnce(s[..4], t[..4]);
    DecimalOnce(s[5..], t[5..]);
    assert s == s[..4] + [s[4]] + s[5..] && t == t[..4] + [t[4]] + t[5..];
    assert key == key[..n] + [key[n]] + s && other == other[..n] + [other[n]] + t;
  }

  /** A group has one value. */
  lemma ValueSaysOnce(value: seq<Byte>, other: seq<Byte>, a: Acc)
    requires a.count >= 1 && ValueSays(value, a) && ValueSays(other, a)
    ensures value == other
  {
    var f: Fields :| Spells(f, value) && FieldsSay(f, a);
    var g: Fields :| Spells(g, other) && FieldsSay(g, a);
    FieldsOnce(f, g, a);
  }

  lemma FieldsOnce(f: Fields, g: Fields, a: Acc)
    requires a.count >= 1 && FieldsSay(f, a) && FieldsSay(g, a) && |f.cents| == |g.cents| == 2
    ensures f == g
  {
    PlainIsUnique(f.min, g.min, a.min);
    PlainIsUnique(f.max, g.max, a.max);
    PlainIsUnique(f.count, g.count, a.count);
    PlainIsUnique(f.stamps, g.stamps, a.stamps);
    MeanIsUnique(100 * Decimal(f.whole) + Decimal(f.cents), 100 * Decimal(g.whole) + Decimal(g.cents), a.total, a.count);
    TwoDigits(f.cents[0], f.cents[1]);
    TwoDigits(g.cents[0], g.cents[1]);
    assert f.cents == [f.cents[0], f.cents[1]] && g.cents == [g.cents[0], g.cents[1]];
    PlainIsUnique(f.whole, g.whole, Decimal(f.whole));
    DecimalOnce(f.cents, g.cents);
  }

  // ---- write_result ------------------------------------------------------------------

  /** A map's channels and what it holds for each of their months. */
  datatype Groups = Groups(dict: seq<Key>, stats: seq<Stat>)

  function GroupsOf(t: Table): Groups {
    Groups(t.dict, seq(|t.cells|, i requires 0 <= i < |t.cells| => Value(t.cells[i])))
  }

  const BUFFER := 0x40_0000

  predicate GroupOk(channel: Key, month: nat, stat: Stat) {
    stat.Some? ==> RecOk(Rec(channel, month, stat.value)) && |channel| + 96 <= BUFFER
  }

  /** The groups that hold anything are clean and printable. */
  ghost predicate Writable(g: Groups) {
    && Distinct(g.dict) && |g.stats| == MONTHS * |g.dict|
    && forall id: nat, month: nat :: id < |g.dict| && month < MONTHS ==>
                                       GroupOk(g.dict[id], month, g.stats[Slot(id, month)])
  }

  /** What the first n places of the walk print: place p is month p % 12 of channel order[p / 12]. */
  ghost function Printed(g: Groups, order: seq<nat>, n: nat): (recs: seq<Rec>)
    requires Writable(g) && n <= MONTHS * |order| && forall k :: 0 <= k < |order| ==> order[k] < |g.dict|
    ensures forall k :: 0 <= k < |recs| ==> RecOk(recs[k])
  {
    if n == 0 then []
    else
      var id, month := order[(n - 1) / MONTHS], (n - 1) % MONTHS;
      var stat := g.stats[Slot(id, month)];
      Printed(g, order, n - 1) + if stat.Some? then [Rec(g.dict[id], month, stat.value)] else []
  }

  lemma {:induction false} TextSnoc(pairs: seq<Pair>, p: Pair)
    ensures TextOf(pairs + [p]) == TextOf(pairs) + RecordLine(p.key, p.value)
  {
    if |pairs| > 0 {
      assert (pairs + [p])[1..] == pairs[1..] + [p];
      TextSnoc(pairs[1..], p);
    }
  }

  lemma NumeralWidth(x: Word32)
    ensures |Numeral(x)| <= 10
  {
    BitLength32(x);
    BitLengthBounds(x);
    WidthIsExact(x);
    EstimateBounds(BitLength(x));
  }

  // ---- One line in the buffer --------------------------------------------------------

  /** The part of the buffer in use. */
  ghost function Used(buf: array<Byte>, n: nat): (text: seq<Byte>)
    requires n <= buf.Length
    reads buf
    ensures |text| == n
  {
    buf[..n]
  }

  method PutByte(buf: array<Byte>, p: nat, b: Byte) returns (end: nat)
    requires p < buf.Length
    modifies buf
    ensures end == p + 1 && Used(buf, end) == old(Used(buf, p)) + [b]
  {
    buf[p] := b;
    end := p + 1;
  }

  /** memcpy */
  method PutBytes(buf: array<Byte>, p: nat, text: seq<Byte>) returns (end: nat)
    requires p + |text| <= buf.Length
    modifies buf
    ensures end == p + |text| && Used(buf, end) == old(Used(buf, p)) + text
  {
    ghost var before := buf[..p];
    for i := 0 to |text|
      invariant buf[..p + i] == before + text[..i]
    {
      buf[p + i] := text[i];
    }
    end := p + |text|;
    assert text[..|text|] == text;
  }

  method PutUint(buf: array<Byte>, p: nat, x: Word32) returns (end: nat)
    requires p + 10 <= buf.Length
    modifies buf
    ensures end == p + |Numeral(x)| <= p + 10 && Used(buf, end) == old(Used(buf, p)) + Numeral(x)
  {
    NumeralWidth(x);
    end := AppendUint(buf, p, x);
    Prefix(buf[..], old(buf[..p]), Numeral(x), old(buf[end..]));
  }

  lemma Prefix(all: seq<Byte>, front: seq<Byte>, text: seq<Byte>, rest: seq<Byte>)
    requires all == front + text + rest
    ensures all[..|front| + |text|] == front + text
  {
  }

  lemma FixedWidth(a: Acc)
    requires Printable(a)
    ensures |FixedText(FormatFixed2Cents(Divide(a.total, a.count)))| <= 13
  {
    var cents := FormatFixed2Cents(Divide(a.total, a.count));
    CentsFit(a.total, a.count);
    NumeralWidth(cents / 100);
    PadTwoIsTwo(cents);
  }

  method PutAverage(buf: array<Byte>, p: nat, a: Acc) returns (end: nat)
    requires Printable(a) && p + 13 <= buf.Length
    modifies buf
    ensures var text := FixedText(FormatFixed2Cents(Divide(a.total, a.count)));
            end == p + |text| <= p + 13 && Used(buf, end) == old(Used(buf, p)) + text
  {
    FixedWidth(a);
    end := AppendAverage(buf, p, a.total, a.count);
    Prefix(buf[..], old(buf[..p]), FixedText(FormatFixed2Cents(Divide(a.total, a.count))), old(buf[end..]));
  }

  /** Two writes, one behind the other. */
  lemma Chain(before: seq<Byte>, middle: seq<Byte>, after: seq<Byte>, a: seq<Byte>, b: seq<Byte>)
    requires middle == before + a && after == middle + b
    ensures after == before + (a + b)
  {
  }

  /** A number and the slash behind it. */
  method PutUintSlash(buf: array<Byte>, p: nat, x: Word32) returns (end: nat)
    requires p + 11 <= buf.Length
    modifies buf
    ensures end <= p + 11 && Used(buf, end) == old(Used(buf, p)) + (Numeral(x) + [SLASH])
  {
    var q := PutUint(buf, p, x);
    ghost var middle := Used(buf, q);
    end := PutByte(buf, q, SLASH);
    Chain(old(Used(buf, p)), middle, Used(buf, end), Numeral(x), [SLASH]);
  }

  /** Least length and mean, each with the slash behind it. */
  method PutMean(buf: array<Byte>, p: nat, a: Acc) returns (end: nat)
    requires Printable(a) && p + 25 <= buf.Length
    modifies buf
    ensures end <= p + 25
    ensures Used(buf, end) == old(Used(buf, p)) + MeanText(a)
  {
    ghost var text := FixedText(FormatFixed2Cents(Divide(a.total, a.count)));
    var q := PutUintSlash(buf, p, a.min);
    ghost var first := Used(buf, q);
    var r := PutAverage(buf, q, a);
    ghost var second := Used(buf, r);
    end := PutByte(buf, r, SLASH);
    Chain(first, second, Used(buf, end), text, [SLASH]);
    Chain(old(Used(buf, p)), first, Used(buf, end), Numeral(a.min) + [SLASH], text + [SLASH]);
  }

  /** Greatest length, count and stamps. */
  method PutCounts(buf: array<Byte>, p: nat, a: Acc) returns (end: nat)
    requires Printable(a) && p + 32 <= buf.Length
    modifies buf
    ensures end <= p + 32
    ensures Used(buf, end) == old(Used(buf, p)) + CountsText(a)
  {
    var q := PutUintSlash(buf, p, a.max);
    ghost var first := Used(buf, q);
    var r := PutUintSlash(buf, q, a.count);
    ghost var second := Used(buf, r);
    end := PutUint(buf, r, a.stamps);
    Chain(first, second, Used(buf, end), Numeral(a.count) + [SLASH], Numeral(a.stamps));
    Chain(old(Used(buf, p)), first, Used(buf, end), Numeral(a.max) + [SLASH], (Numeral(a.count) + [SLASH]) + Numeral(a.stamps));
  }

  ghost function MeanText(a: Acc): seq<Byte>
    requires Printable(a)
  {
    (Numeral(a.min) + [SLASH]) + (FixedText(FormatFixed2Cents(Divide(a.total, a.count))) + [SLASH])
  }

  ghost function CountsText(a: Acc): seq<Byte> {
    (Numeral(a.max) + [SLASH]) + ((Numeral(a.count) + [SLASH]) + Numeral(a.stamps))
  }

  lemma ValueText(a: Acc)
    requires Printable(a)
    ensures MeanText(a) + CountsText(a) == RecordValue(a)
  {
    var cents := FormatFixed2Cents(Divide(a.total, a.count));
    ValueParts(Numeral(a.min), Numeral(cents / 100), PadTwo(cents % 100), Numeral(a.max), Numeral(a.count), Numeral(a.stamps));
  }

  lemma ValueParts(min: seq<Byte>, whole: seq<Byte>, cents: seq<Byte>, max: seq<Byte>, count: seq<Byte>, stamps: seq<Byte>)
    ensures ((min + [SLASH]) + ((whole + [POINT] + cents) + [SLASH])) + ((max + [SLASH]) + ((count + [SLASH]) + stamps)) ==
            min + ([SLASH] + (whole + ([POINT] + (cents + ([SLASH] + (max + ([SLASH] + (count + ([SLASH] + stamps)))))))))
  {
    var counts := (max + [SLASH]) + ((count + [SLASH]) + stamps);
    assert counts == max + ([SLASH] + (count + ([SLASH] + stamps)));
    assert ((whole + [POINT] + cents) + [SLASH]) + counts == whole + ([POINT] + (cents + ([SLASH] + counts)));
    assert ((min + [SLASH]) + ((whole + [POINT] + cents) + [SLASH])) + counts ==
           min + ([SLASH] + (((whole + [POINT] + cents) + [SLASH]) + counts));
  }

  /** The five numbers of a group. */
  method PutValue(buf: array<Byte>, p: nat, a: Acc) returns (end: nat)
    requires Printable(a) && p + 57 <= buf.Length
    modifies buf
    ensures end <= p + 57 && Used(buf, end) == old(Used(buf, p)) + RecordValue(a)
  {
    var q := PutMean(buf, p, a);
    ghost var middle := Used(buf, q);
    end := PutCounts(buf, q, a);
    Chain(old(Used(buf, p)), middle, Used(buf, end), MeanText(a), CountsText(a));
    ValueText(a);
  }

  /** Channel, month and the equals sign. */
  method PutKey(buf: array<Byte>, p: nat, channel: Key, month: nat) returns (end: nat)
    requires month < MONTHS && p + |channel| + 9 <= buf.Length
    modifies buf
    ensures end == p + |channel| + 9 && Used(buf, end) == old(Used(buf, p)) + (RecordKey(channel, month) + [EQUALS])
  {
    var q := PutBytes(buf, p, channel);
    ghost var first := Used(buf, q);
    var r := PutByte(buf, q, COMMA);
    ghost var second := Used(buf, r);
    var u := PutBytes(buf, r, Label(month));
    ghost var third := Used(buf, u);
    end := PutByte(buf, u, EQUALS);
    Chain(old(Used(buf, p)), first, second, channel, [COMMA]);
    Chain(old(Used(buf, p)), second, third, channel + [COMMA], Label(month));
    Chain(old(Used(buf, p)), third, Used(buf, end), channel + [COMMA] + Label(month), [EQUALS]);
  }

  /** One line behind what is in the buffer, within the slack that write_result reserves. */
  method PutLine(buf: array<Byte>, p: nat, r: Rec) returns (end: nat)
    requires RecOk(r) && p + |r.channel| + 96 <= buf.Length
    modifies buf
    ensures end <= p + |r.channel| + 96
    ensures Used(buf, end) == old(Used(buf, p)) + RecordLine(PairOf(r).key, PairOf(r).value)
  {
    var q := PutKey(buf, p, r.channel, r.month);
    ghost var first := Used(buf, q);
    var u := PutValue(buf, q, r.acc);
    ghost var second := Used(buf, u);
    end := PutByte(buf, u, LF);
    ghost var key := RecordKey(r.channel, r.month) + [EQUALS];
    Chain(old(Used(buf, p)), first, second, key, RecordValue(r.acc));
    Chain(old(Used(buf, p)), second, Used(buf, end), key + RecordValue(r.acc), [LF]);
  }

  /** A line, after writing the buffer out when the line might not fit. */
  method Emit(file: seq<Byte>, buf: array<Byte>, used: nat, r: Rec) returns (file': seq<Byte>, used': nat)
    requires RecOk(r) && |r.channel| + 96 <= BUFFER && used <= buf.Length == BUFFER
    modifies buf
    ensures used' <= BUFFER
    ensures file' + Used(buf, used') == file + old(Used(buf, used)) + RecordLine(PairOf(r).key, PairOf(r).value)
  {
    var from;
    file', from := MakeRoom(file, buf, used, |r.channel|);
    used' := PutLine(buf, from, r);
    Behind(file', old(Used(buf, from)), Used(buf, used'), RecordLine(PairOf(r).key, PairOf(r).value));
  }

  /** The buffer is written out when a line might not fit. */
  method MakeRoom(file: seq<Byte>, buf: array<Byte>, used: nat, length: nat) returns (file': seq<Byte>, from: nat)
    requires length + 96 <= BUFFER && used <= buf.Length == BUFFER
    ensures from + length + 96 <= BUFFER
    ensures file' + Used(buf, from) == file + Used(buf, used)
  {
    file', from := file, used;
    if used + length + 96 > BUFFER {
      file', from := file + buf[..used], 0;
    }
  }

  lemma Behind(file: seq<Byte>, before: seq<Byte>, after: seq<Byte>, line: seq<Byte>)
    requires after == before + line
    ensures file + after == (file + before) + line
  {
  }

  lemma NextLine(recs: seq<Rec>, r: Rec)
    requires (forall k :: 0 <= k < |recs| ==> RecOk(recs[k])) && RecOk(r)
    ensures TextOf(PairsOf(recs + [r])) == TextOf(PairsOf(recs)) + RecordLine(PairOf(r).key, PairOf(r).value)
  {
    assert PairsOf(recs + [r]) == PairsOf(recs) + [PairOf(r)];
    TextSnoc(PairsOf(recs), PairOf(r));
  }

  /** What place p of the walk prints, if anything. */
  lemma PrintedNext(g: Groups, order: seq<nat>, p: nat)
    requires Writable(g) && p < MONTHS * |order| && forall k :: 0 <= k < |order| ==> order[k] < |g.dict|
    ensures var id := order[p / MONTHS];
            && id < |g.dict| && Slot(id, p % MONTHS) < |g.stats|
            && (var stat := g.stats[Slot(id, p % MONTHS)];
                if stat.Some? then
                  RecOk(Rec(g.dict[id], p % MONTHS, stat.value)) && |g.dict[id]| + 96 <= BUFFER &&
                  TextOf(PairsOf(Printed(g, order, p + 1))) ==
                  TextOf(PairsOf(Printed(g, order, p))) +
                  RecordLine(PairOf(Rec(g.dict[id], p % MONTHS, stat.value)).key,
                             PairOf(Rec(g.dict[id], p % MONTHS, stat.value)).value)
                else Printed(g, order, p + 1) == Printed(g, order, p))
  {
    var id := order[p / MONTHS];
    var stat := g.stats[Slot(id, p % MONTHS)];
    assert GroupOk(g.dict[id], p % MONTHS, stat);
    if stat.Some? {
      NextLine(Printed(g, order, p), Rec(g.dict[id], p % MONTHS, stat.value));
    }
  }

  /** The text of the first p places of the walk. */
  ghost function TextUpTo(g: Groups, order: seq<nat>, p: nat): seq<Byte>
    requires Writable(g) && p <= MONTHS * |order| && forall k :: 0 <= k < |order| ==> order[k] < |g.dict|
  {
    TextOf(PairsOf(Printed(g, order, p)))
  }

  /** Place p of the walk. */
  method EmitPlace(t: Table, order: seq<nat>, p: nat, file: seq<Byte>, buf: array<Byte>, used: nat)
    returns (file': seq<Byte>, used': nat)
    requires Writable(GroupsOf(t)) && p < MONTHS * |order| && forall k :: 0 <= k < |order| ==> order[k] < |t.dict|
    requires used <= buf.Length == BUFFER && file + Used(buf, used) == TextUpTo(GroupsOf(t), order, p)
    modifies buf
    ensures used' <= buf.Length && file' + Used(buf, used') == TextUpTo(GroupsOf(t), order, p + 1)
  {
    PrintedNext(GroupsOf(t), order, p);
    var id, month := order[p / MONTHS], p % MONTHS;
    var stat := Value(t.cells[Slot(id, month)]);
    if stat.None? {
      return file, used;
    }
    file', used' := Emit(file, buf, used, Rec(t.dict[id], month, stat.value));
  }

  /** write_result: the buffer never overflows, and what was written out and the buffer together are
      one line for each non-empty group of the walk, saying what the group holds. */
  method WriteResult(t: Table, order: seq<nat>) returns (file: seq<Byte>)
    requires Writable(GroupsOf(t)) && forall k :: 0 <= k < |order| ==> order[k] < |t.dict|
    ensures file == TextOf(PairsOf(Printed(GroupsOf(t), order, MONTHS * |order|)))
    ensures FileSays(file, Printed(GroupsOf(t), order, MONTHS * |order|))
  {
    var buf, used: nat := new Byte[BUFFER], 0;
    file := [];
    for p := 0 to MONTHS * |order|
      invariant used <= buf.Length && file + Used(buf, used) == TextUpTo(GroupsOf(t), order, p)
    {
      file, used := EmitPlace(t, order, p, file, buf, used);
    }
    file := file + buf[..used];
    PrintedSays(GroupsOf(t), order);
  }

  lemma PrintedSays(g: Groups, order: seq<nat>)
    requires Writable(g) && forall k :: 0 <= k < |order| ==> order[k] < |g.dict|
    ensures FileSays(TextOf(PairsOf(Printed(g, order, MONTHS * |order|))), Printed(g, order, MONTHS * |order|))
  {
    var lines := TextSays(Printed(g, order, MONTHS * |order|));
  }

  /** Every group that holds anything is printed, and nothing else. */
  lemma {:induction false} PrintedMeaning(g: Groups, order: seq<nat>, n: nat, r: Rec)
    requires Writable(g) && n <= MONTHS * |order| && forall k :: 0 <= k < |order| ==> order[k] < |g.dict|
    ensures r in Printed(g, order, n) <==>
            exists p :: 0 <= p < n && r.channel == g.dict[order[p / MONTHS]] && r.month == p % MONTHS &&
                        g.stats[Slot(order[p / MONTHS], p % MONTHS)] == Some(r.acc)
  {
    if n > 0 {
      PrintedMeaning(g, order, n - 1, r);
    }
  }

  /** Two places of the walk never print the same group. */
  lemma PlacesDiffer(g: Groups, order: seq<nat>, p: nat, q: nat)
    requires Writable(g) && Visits(order, |g.dict|) && q < p < MONTHS * |order| && q % MONTHS == p % MONTHS
    ensures g.dict[order[q / MONTHS]] != g.dict[order[p / MONTHS]]
  {
  }

  lemma {:induction false} PrintedOnce(g: Groups, order: seq<nat>, n: nat)
    requires Writable(g) && n <= MONTHS * |order| && Visits(order, |g.dict|)
    ensures DistinctGroups(Printed(g, order, n))
  {
    if n > 0 {
      PrintedOnce(g, order, n - 1);
      var front, p := Printed(g, order, n - 1), n - 1;
      forall k | 0 <= k < |front|
        ensures front[k].channel != g.dict[order[p / MONTHS]] || front[k].month != p % MONTHS
      {
        NotYetPrinted(g, order, p, front[k]);
      }
    }
  }

  lemma NotYetPrinted(g: Groups, order: seq<nat>, p: nat, r: Rec)
    requires Writable(g) && p < MONTHS * |order| && Visits(order, |g.dict|) && r in Printed(g, order, p)
    ensures r.channel != g.dict[order[p / MONTHS]] || r.month != p % MONTHS
  {
    PrintedMeaning(g, order, p, r);
    var q :| 0 <= q < p && r.channel == g.dict[order[q / MONTHS]] && r.month == q % MONTHS;
    if q % MONTHS == p % MONTHS {
      PlacesDiffer(g, order, p, q);
    }
  }

  ghost predicate HasRecord(g: Groups, records: map<seq<Byte>, seq<Byte>>, id: nat, month: nat)
    requires Writable(g) && id < |g.dict| && month < MONTHS
  {
    var stat := g.stats[Slot(id, month)];
    stat.Some? ==> RecordKey(g.dict[id], month) in records &&
                   records[RecordKey(g.dict[id], month)] == RecordValue(stat.value)
  }

  ghost predicate HasGroup(g: Groups, key: seq<Byte>)
    requires Writable(g)
  {
    exists id: nat, month: nat :: id < |g.dict| && month < MONTHS &&
      g.stats[Slot(id, month)].Some? && RecordKey(g.dict[id], month) == key
  }

  /** The written file parses back to exactly one record for every channel and month that holds
      anything, with its five printed numbers. */
  lemma FileLoadsBack(g: Groups, order: seq<nat>) returns (records: map<seq<Byte>, seq<Byte>>)
    requires Writable(g) && Visits(order, |g.dict|)
    ensures LoadAll(SplitLines(TextOf(PairsOf(Printed(g, order, MONTHS * |order|)))), map[]) == Records(records)
    ensures forall id: nat, month: nat :: id < |g.dict| && month < MONTHS ==> HasRecord(g, records, id, month)
    ensures forall key :: key in records ==> HasGroup(g, key)
  {
    var n := MONTHS * |order|;
    PrintedOnce(g, order, n);
    records := OutputLoadsBack(Printed(g, order, n));
    forall id: nat, month: nat | id < |g.dict| && month < MONTHS ensures HasRecord(g, records, id, month) {
      RecordOfGroup(g, order, records, id, month);
    }
    forall key | key in records ensures HasGroup(g, key) {
      GroupOfRecord(g, order, records, key);
    }
  }

  /** What OutputLoadsBack says of the loaded records. */
  ghost predicate Loads(recs: seq<Rec>, records: map<seq<Byte>, seq<Byte>>)
    requires forall i :: 0 <= i < |recs| ==> RecOk(recs[i])
  {
    && (forall i :: 0 <= i < |recs| ==>
          PairOf(recs[i]).key in records && records[PairOf(recs[i]).key] == PairOf(recs[i]).value)
    && forall key :: key in records ==> exists i :: 0 <= i < |recs| && PairOf(recs[i]).key == key
  }

  lemma RecordOfGroup(g: Groups, order: seq<nat>, records: map<seq<Byte>, seq<Byte>>, id: nat, month: nat)
    requires Writable(g) && Visits(order, |g.dict|) && id < |g.dict| && month < MONTHS
    requires Loads(Printed(g, order, MONTHS * |order|), records)
    ensures HasRecord(g, records, id, month)
  {
    var recs := Printed(g, order, MONTHS * |order|);
    if g.stats[Slot(id, month)].Some? {
      GroupIsPrinted(g, order, id, month);
      var i :| 0 <= i < |recs| && recs[i] == Rec(g.dict[id], month, g.stats[Slot(id, month)].value);
      assert PairOf(recs[i]).key in records;
    }
  }

  lemma GroupOfRecord(g: Groups, order: seq<nat>, records: map<seq<Byte>, seq<Byte>>, key: seq<Byte>)
    requires Writable(g) && Visits(order, |g.dict|) && key in records
    requires Loads(Printed(g, order, MONTHS * |order|), records)
    ensures HasGroup(g, key)
  {
    var recs := Printed(g, order, MONTHS * |order|);
    var i :| 0 <= i < |recs| && PairOf(recs[i]).key == key;
    var id, month := PrintedIsGroup(g, order, recs[i]);
    assert PairOf(recs[i]).key == RecordKey(recs[i].channel, recs[i].month);
    assert g.stats[Slot(id, month)].Some? && RecordKey(g.dict[id], month) == key;
  }

  lemma GroupIsPrinted(g: Groups, order: seq<nat>, id: nat, month: nat)
    requires Writable(g) && Visits(order, |g.dict|) && id < |g.dict| && month < MONTHS
    requires g.stats[Slot(id, month)].Some?
    ensures Rec(g.dict[id], month, g.stats[Slot(id, month)].value) in Printed(g, order, MONTHS * |order|)
  {
    assert id in order;
    var k :| 0 <= k < |order| && order[k] == id;
    var p := MONTHS * k + month;
    assert p / MONTHS == k && p % MONTHS == month;
    PrintedMeaning(g, order, MONTHS * |order|, Rec(g.dict[id], month, g.stats[Slot(id, month)].value));
  }

  lemma PrintedIsGroup(g: Groups, order: seq<nat>, r: Rec) returns (id: nat, month: nat)
    requires Writable(g) && Visits(order, |g.dict|) && r in Printed(g, order, MONTHS * |order|)
    ensures id < |g.dict| && month < MONTHS && r.channel == g.dict[id] && r.month == month
    ensures g.stats[Slot(id, month)] == Some(r.acc)
  {
    PrintedMeaning(g, order, MONTHS * |order|, r);
    var p :| 0 <= p < MONTHS * |order| && r.channel == g.dict[order[p / MONTHS]] && r.month == p % MONTHS &&
             g.stats[Slot(order[p / MONTHS], p % MONTHS)] == Some(r.acc);
    id, month := order[p / MONTHS], p % MONTHS;
  }
}
