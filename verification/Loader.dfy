/** How the contest's comparison reads an output file: line by line into a map. */
module Loader {
  import opened ReferenceFold
  import opened Csv
  import opened Rounding

  const EQUALS: Byte := 61
  const SLASH: Byte := 47
  const CR: Byte := 13

  // ---- loadRecords -------------------------------------------------------------------

  datatype Loaded = Records(records: map<seq<Byte>, seq<Byte>>) | MalformedLine | DuplicateKey | MalformedValue

  /** What follows the run of digits at the start. */
  function DropDigits(s: seq<Byte>): (rest: seq<Byte>)
    ensures |rest| <= |s|
  {
    if |s| > 0 && Digit(s[0]) then DropDigits(s[1..]) else s
  }

  /** At least one digit, then the separator. */
  predicate DigitsThen(s: seq<Byte>, separator: Byte) {
    var rest := DropDigits(s);
    0 < |rest| < |s| && rest[0] == separator
  }

  function AfterRun(s: seq<Byte>): seq<Byte>
    requires |DropDigits(s)| > 0
  {
    DropDigits(s)[1..]
  }

  /** The pattern \d+/\d+.\d\d/\d+/\d+/\d+ over the whole value; no run of digits can be cut
      short, because what follows each run is not a digit. */
  predicate MatchesValue(s: seq<Byte>) {
    DigitsThen(s, SLASH) &&
    var mean := AfterRun(s);
    DigitsThen(mean, POINT) &&
    var decimals := AfterRun(mean);
    DigitsThen(decimals, SLASH) && |decimals| - |DropDigits(decimals)| == 2 &&
    var max := AfterRun(decimals);
    DigitsThen(max, SLASH) &&
    var count := AfterRun(max);
    DigitsThen(count, SLASH) &&
    var stamps := AfterRun(count);
    |stamps| > 0 && DropDigits(stamps) == []
  }

  /** line.indexOf(b), or the length. */
  function IndexOfByte(s: seq<Byte>, b: Byte): (i: nat)
    ensures i <= |s| && (i < |s| ==> s[i] == b) && forall k :: 0 <= k < i ==> s[k] != b
  {
    if |s| == 0 || s[0] == b then 0 else 1 + IndexOfByte(s[1..], b)
  }

  /** One line of loadRecords. */
  function LoadLine(line: seq<Byte>, records: map<seq<Byte>, seq<Byte>>): Loaded {
    var separator := IndexOfByte(line, EQUALS);
    if |line| == 0 then Records(records)
    else if separator == 0 || separator >= |line| - 1 then MalformedLine
    else
      var key, value := line[..separator], line[separator + 1..];
      if key in records then DuplicateKey
      else if !MatchesValue(value) then MalformedValue
      else Records(records[key := value])
  }

  /** The lines of a text that uses line feeds alone. */
  function SplitLines(text: seq<Byte>): seq<seq<Byte>> {
    var n := IndexOfByte(text, LF);
    if |text| == 0 then [] else if n == |text| then [text] else [text[..n]] + SplitLines(text[n + 1..])
  }

  function LoadAll(lines: seq<seq<Byte>>, records: map<seq<Byte>, seq<Byte>>): Loaded {
    if |lines| == 0 then Records(records)
    else
      var next := LoadLine(lines[0], records);
      if next.Records? then LoadAll(lines[1..], next.records) else next
  }

  // ---- Runs of digits ----------------------------------------------------------------

  lemma {:induction false} IndexOfFirst(s: seq<Byte>, b: Byte, i: nat)
    requires i < |s| && s[i] == b && forall k :: 0 <= k < i ==> s[k] != b
    ensures IndexOfByte(s, b) == i
  {
    if i > 0 {
      IndexOfFirst(s[1..], b, i - 1);
    }
  }

  lemma {:induction false} DropRun(digits: seq<Byte>, after: seq<Byte>)
    requires (forall k :: 0 <= k < |digits| ==> Digit(digits[k])) && (after == [] || !Digit(after[0]))
    ensures DropDigits(digits + after) == after
  {
    if |digits| > 0 {
      assert (digits + after)[1..] == digits[1..] + after;
      DropRun(digits[1..], after);
    } else {
      assert digits + after == after;
    }
  }

  lemma RunOf(digits: seq<Byte>, separator: Byte, after: seq<Byte>)
    requires Digits(digits) && !Digit(separator)
    ensures var s := digits + ([separator] + after);
            DigitsThen(s, separator) && AfterRun(s) == after && |s| - |DropDigits(s)| == |digits|
  {
    DropRun(digits, [separator] + after);
  }

  // ---- What is accepted --------------------------------------------------------------

  /** The six runs of digits in a value. */
  datatype Fields = Fields(min: seq<Byte>, whole: seq<Byte>, cents: seq<Byte>, max: seq<Byte>, count: seq<Byte>,
                           stamps: seq<Byte>)

  /** Five numbers with slashes (47) between them, the second with a point (46) and two decimals. */
  ghost predicate Spells(f: Fields, s: seq<Byte>) {
    && Digits(f.min) && Digits(f.whole) && Digits(f.cents) && |f.cents| == 2
    && Digits(f.max) && Digits(f.count) && Digits(f.stamps)
    && s == f.min + ([47] + (f.whole + ([46] + (f.cents + ([47] + (f.max + ([47] + (f.count + ([47] + f.stamps)))))))))
  }

  ghost predicate IsValue(s: seq<Byte>) { exists f: Fields :: Spells(f, s) }

  /** A key and a value that are not empty, joined by the first equals sign (61) of the line. */
  ghost predicate IsPair(line: seq<Byte>, key: seq<Byte>, value: seq<Byte>) {
    line == key + [61] + value && |key| > 0 && |value| > 0 && forall i :: 0 <= i < |key| ==> key[i] != 61
  }

  ghost predicate HasPair(line: seq<Byte>) { exists key, value :: IsPair(line, key, value) }

  ghost predicate HasKey(line: seq<Byte>, key: seq<Byte>) { exists value :: IsPair(line, key, value) }

  ghost predicate NewKey(lines: seq<seq<Byte>>, i: nat, key: seq<Byte>)
    requires i <= |lines|
  {
    forall j :: 0 <= j < i ==> !HasKey(lines[j], key)
  }

  /** Nothing, or a key that no earlier line has with a value of the demanded form. */
  ghost predicate LineOk(lines: seq<seq<Byte>>, i: nat)
    requires i < |lines|
  {
    lines[i] == [] || exists key, value :: IsPair(lines[i], key, value) && NewKey(lines, i, key) && IsValue(value)
  }

  /** Why a line is bad: it has no pair, or else repeats a key, or else has a bad value. */
  ghost predicate Fault(lines: seq<seq<Byte>>, i: nat, error: Loaded)
    requires i < |lines|
  {
    && lines[i] != [] && error == if !HasPair(lines[i]) then MalformedLine
                                  else if RepeatsKey(lines, i) then DuplicateKey else MalformedValue
  }

  ghost predicate RepeatsKey(lines: seq<seq<Byte>>, i: nat)
    requires i < |lines|
  {
    exists key :: HasKey(lines[i], key) && !NewKey(lines, i, key)
  }

  /** The pairs of the first n lines. */
  ghost predicate HoldsPairs(lines: seq<seq<Byte>>, n: nat, records: map<seq<Byte>, seq<Byte>>)
    requires n <= |lines|
  {
    && (forall key :: key in records ==> exists j :: 0 <= j < n && IsPair(lines[j], key, records[key]))
    && forall j, key, value :: 0 <= j < n && IsPair(lines[j], key, value) ==> key in records && records[key] == value
  }

  /** Exactly when all lines are good they load, as exactly their pairs; else the first bad one says why
      not. */
  ghost predicate LoadsAs(lines: seq<seq<Byte>>, loaded: Loaded) {
    match loaded
    case Records(records) => (forall i :: 0 <= i < |lines| ==> LineOk(lines, i)) && HoldsPairs(lines, |lines|, records)
    case error => exists i :: 0 <= i < |lines| && FirstBad(lines, i) && Fault(lines, i, error)
  }

  ghost predicate FirstBad(lines: seq<seq<Byte>>, i: nat)
    requires i < |lines|
  {
    !LineOk(lines, i) && forall j :: 0 <= j < i ==> LineOk(lines, j)
  }

  /** The lines of a text, none with a line feed (10) in it; the last one need not end in one. */
  ghost predicate AreLines(text: seq<Byte>, lines: seq<seq<Byte>>) {
    && (forall i, k :: 0 <= i < |lines| && 0 <= k < |lines[i]| ==> lines[i][k] != 10)
    && (text == Ended(lines) || (text + [10] == Ended(lines) && text != [] && text[|text| - 1] != 10))
  }

  function Ended(lines: seq<seq<Byte>>): seq<Byte> {
    if |lines| == 0 then [] else (lines[0] + [10]) + Ended(lines[1..])
  }

  lemma {:induction false} SplitMeaning(text: seq<Byte>)
    ensures AreLines(text, SplitLines(text))
  {
    var n := IndexOfByte(text, LF);
    if |text| == 0 {
    } else if n == |text| {
      assert [text][1..] == [] && Ended([]) == [];
      assert Ended([text]) == text + [10];
    } else {
      var rest := text[n + 1..];
      SplitMeaning(rest);
      SplitNext(text, n, SplitLines(rest));
    }
  }

  lemma SplitNext(text: seq<Byte>, n: nat, lines: seq<seq<Byte>>)
    requires n < |text| && text[n] == 10 && (forall k :: 0 <= k < n ==> text[k] != 10) && AreLines(text[n + 1..], lines)
    ensures AreLines(text, [text[..n]] + lines)
  {
    var all, rest := [text[..n]] + lines, text[n + 1..];
    assert all[1..] == lines;
    assert text == text[..n] + [10] + rest;
    if rest == Ended(lines) {
      assert Ended(all) == text;
    } else {
      assert text + [10] == (text[..n] + [10]) + (rest + [10]);
      assert text[|text| - 1] == rest[|rest| - 1];
    }
  }

  // ---- The value ---------------------------------------------------------------------

  lemma {:induction false} RunFirst(s: seq<Byte>)
    ensures var n := |s| - |DropDigits(s)|;
            s == s[..n] + DropDigits(s) && forall k :: 0 <= k < n ==> Digit(s[k])
  {
    if |s| > 0 && Digit(s[0]) {
      RunFirst(s[1..]);
    }
  }

  lemma RunBefore(s: seq<Byte>, separator: Byte) returns (run: seq<Byte>)
    requires DigitsThen(s, separator)
    ensures Digits(run) && s == run + ([separator] + AfterRun(s)) && |run| == |s| - |DropDigits(s)|
  {
    RunFirst(s);
    run := s[..|s| - |DropDigits(s)|];
  }

  /** The matcher accepts exactly the pattern. */
  lemma MatchesExactly(s: seq<Byte>)
    ensures MatchesValue(s) <==> IsValue(s)
  {
    if MatchesValue(s) {
      var f := FieldsOf(s);
    }
    if IsValue(s) {
      var f: Fields :| Spells(f, s);
      SpelledMatches(f, s);
    }
  }

  lemma FieldsOf(s: seq<Byte>) returns (f: Fields)
    requires MatchesValue(s)
    ensures Spells(f, s)
  {
    var min := RunBefore(s, SLASH);
    var mean := AfterRun(s);
    var whole := RunBefore(mean, POINT);
    var decimals := AfterRun(mean);
    var cents := RunBefore(decimals, SLASH);
    var rest := AfterRun(decimals);
    var max := RunBefore(rest, SLASH);
    var counts := AfterRun(rest);
    var count := RunBefore(counts, SLASH);
    RunFirst(AfterRun(counts));
    f := Fields(min, whole, cents, max, count, AfterRun(counts));
  }

  lemma SpelledMatches(f: Fields, s: seq<Byte>)
    requires Spells(f, s)
    ensures MatchesValue(s)
  {
    var counts := f.count + ([47] + f.stamps);
    var rest := f.max + ([47] + counts);
    var decimals := f.cents + ([47] + rest);
    var mean := f.whole + ([46] + decimals);
    RunOf(f.min, SLASH, mean);
    RunOf(f.whole, POINT, decimals);
    RunOf(f.cents, SLASH, rest);
    RunOf(f.max, SLASH, counts);
    RunOf(f.count, SLASH, f.stamps);
    DropRun(f.stamps, []);
    assert f.stamps + [] == f.stamps;
  }

  // ---- The lines ---------------------------------------------------------------------

  lemma PairAt(line: seq<Byte>, key: seq<Byte>, value: seq<Byte>)
    requires IsPair(line, key, value)
    ensures var n := IndexOfByte(line, EQUALS);
            0 < n < |line| - 1 && line[..n] == key && line[n + 1..] == value
  {
    IndexOfFirst(line, EQUALS, |key|);
  }

  lemma PairThere(line: seq<Byte>, n: nat)
    requires 0 < n < |line| - 1 && line[n] == 61 && forall k :: 0 <= k < n ==> line[k] != 61
    ensures IsPair(line, line[..n], line[n + 1..])
  {
    assert line == line[..n] + [61] + line[n + 1..];
  }

  lemma NoPair(line: seq<Byte>)
    requires var n := IndexOfByte(line, EQUALS); n == 0 || n >= |line| - 1
    ensures !HasPair(line)
  {
    forall key, value ensures !IsPair(line, key, value) {
      if IsPair(line, key, value) {
        PairAt(line, key, value);
      }
    }
  }

  lemma OnePair(line: seq<Byte>, n: nat)
    requires n == IndexOfByte(line, EQUALS) && 0 < n < |line| - 1
    ensures forall key, value :: IsPair(line, key, value) <==> key == line[..n] && value == line[n + 1..]
  {
    PairThere(line, n);
    forall key, value | IsPair(line, key, value) ensures key == line[..n] && value == line[n + 1..] {
      PairAt(line, key, value);
    }
  }

  /** What LoadLine makes of line i, when the records are those of the lines before it. */
  lemma LineMeaning(lines: seq<seq<Byte>>, i: nat, records: map<seq<Byte>, seq<Byte>>)
    requires i < |lines| && HoldsPairs(lines, i, records)
    ensures var next := LoadLine(lines[i], records);
            && (next.Records? ==> LineOk(lines, i) && HoldsPairs(lines, i + 1, next.records))
            && (!next.Records? ==> !LineOk(lines, i) && Fault(lines, i, next))
  {
    var line := lines[i];
    var n := IndexOfByte(line, EQUALS);
    if n == 0 || n >= |line| - 1 {
      NoPair(line);
    } else {
      OnePair(line, n);
      MatchesExactly(line[n + 1..]);
      KnownKey(lines, i, records, line[..n]);
      PairMeaning(lines, i, records, line[..n], line[n + 1..]);
    }
  }

  lemma PairMeaning(lines: seq<seq<Byte>>, i: nat, records: map<seq<Byte>, seq<Byte>>, key: seq<Byte>, value: seq<Byte>)
    requires i < |lines| && HoldsPairs(lines, i, records) && IsPair(lines[i], key, value)
    requires forall k, v :: IsPair(lines[i], k, v) <==> k == key && v == value
    ensures LineOk(lines, i) <==> key !in records && IsValue(value)
    ensures HasPair(lines[i]) && (RepeatsKey(lines, i) <==> key in records)
    ensures key !in records ==> HoldsPairs(lines, i + 1, records[key := value])
  {
    KnownKey(lines, i, records, key);
    assert HasKey(lines[i], key);
    assert forall k :: HasKey(lines[i], k) ==> k == key;
    if key !in records {
      var next := records[key := value];
      forall k | k in next ensures exists j :: 0 <= j < i + 1 && IsPair(lines[j], k, next[k]) {
        if k == key {
          assert IsPair(lines[i], k, next[k]);
        }
      }
    }
  }

  lemma KnownKey(lines: seq<seq<Byte>>, i: nat, records: map<seq<Byte>, seq<Byte>>, key: seq<Byte>)
    requires i <= |lines| && HoldsPairs(lines, i, records)
    ensures key in records <==> !NewKey(lines, i, key)
  {
  }

  lemma {:induction false} LoadExactly(lines: seq<seq<Byte>>, i: nat, records: map<seq<Byte>, seq<Byte>>)
    requires i <= |lines| && HoldsPairs(lines, i, records) && forall j :: 0 <= j < i ==> LineOk(lines, j)
    ensures LoadsAs(lines, LoadAll(lines[i..], records))
    decreases |lines| - i
  {
    if i < |lines| {
      var next := LoadLine(lines[i], records);
      LineMeaning(lines, i, records);
      assert lines[i..][0] == lines[i] && lines[i..][1..] == lines[i + 1..];
      if next.Records? {
        LoadExactly(lines, i + 1, next.records);
      } else {
        assert FirstBad(lines, i) && Fault(lines, i, next);
      }
    }
  }

  /** loadRecords: the text loads exactly when each of its lines is empty or a new key with a value of
      the demanded form, and then as exactly these pairs; else the first bad line says why not. */
  method LoadRecords(text: seq<Byte>) returns (loaded: Loaded)
    ensures loaded == LoadAll(SplitLines(text), map[])
    ensures AreLines(text, SplitLines(text)) && LoadsAs(SplitLines(text), loaded)
  {
    var lines := SplitLines(text);
    var records: map<seq<Byte>, seq<Byte>> := map[];
    SplitMeaning(text);
    LoadExactly(lines, 0, records);
    for i := 0 to |lines|
      invariant LoadAll(lines, map[]) == LoadAll(lines[i..], records)
    {
      var next := LoadLine(lines[i], records);
      assert lines[i..][0] == lines[i] && lines[i..][1..] == lines[i + 1..];
      if !next.Records? {
        return next;
      }
      records := next.records;
    }
    loaded := Records(records);
  }
}
