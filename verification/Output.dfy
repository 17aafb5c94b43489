/** From the bytes of the input file to the records of the output file: every cut, every run and
    every order of printing gives the records of the reference fold, and those of the reference
    generator. */
module Output {
  import opened ReferenceFold
  import opened Collections
  import opened Cells
  import opened Tables
  import Months
  import opened Csv
  import opened Chunks
  import opened Publication
  import opened Merging
  import opened Runs
  import opened Program
  import opened Printing
  import opened Rounding
  import opened Loader
  import opened Records
  import opened Comparison
  import GoMap
  import GoAnalyze

  /** The channels of the input are free of the bytes that end a key or a line of the output. */
  ghost predicate CleanLines(lines: seq<Line>) {
    forall i :: 0 <= i < |lines| ==> CleanChannel(lines[i].channel)
  }

  lemma LinesArePrintable(lines: seq<Line>)
    requires ContestInput(lines) && CleanLines(lines)
    ensures PrintableRows(RowsOf(lines))
  {
    forall i | 0 <= i < |lines| ensures PrintableRow(RowsOf(lines)[i]) {
      assert ValidLine(lines[i]) && CleanChannel(lines[i].channel);
    }
  }

  // ---- The optimized analyzer --------------------------------------------------------

  /** The file of this map, whatever the order of its channels, loads as the records of the fold. */
  ghost predicate FileIsFold(rows: seq<Row>, g: Groups, order: seq<nat>) {
    Visits(order, |g.dict|) ==>
      Writable(g) && LoadedFile(g, order).Records? && FoldRecords(rows, LoadedFile(g, order).records)
  }

  /** What the main thread prints once the workers of this state are joined. */
  ghost predicate Prints(rows: seq<Row>, chunks: seq<seq<Row>>, s: State, orders: seq<seq<nat>>, order: seq<nat>) {
    && MergesExactly(chunks, s, orders)
    && (s.word.Published? || Orders(Maps(s), orders) ==>
          FileIsFold(rows, GroupsOf(Merged(s.word, Maps(s), orders)), order))
  }

  lemma JoinedPrints(rows: seq<Row>, chunks: seq<seq<Row>>, s: State, orders: seq<seq<nat>>, order: seq<nat>)
    requires MergesExactly(chunks, s, orders) && Flatten(chunks) == rows && PrintableRows(rows)
    ensures Prints(rows, chunks, s, orders, order)
  {
    if s.word.Published? || Orders(Maps(s), orders) {
      var t := Merged(s.word, Maps(s), orders);
      TableGroups(rows, t);
      if Visits(order, |t.dict|) {
        PrintsTheFold(rows, GroupsOf(t), order);
      }
    }
  }

  ghost predicate RunPrints(rows: seq<Row>, chunks: seq<seq<Row>>, schedule: seq<Turn>, orders: seq<seq<nat>>,
                            order: seq<nat>)
    requires Contract(chunks)
  {
    Schedules(chunks, schedule) && Joined(Run(chunks, schedule)) ==> Prints(rows, chunks, Run(chunks, schedule), orders, order)
  }

  /** However the file is cut at line feeds, whatever the interleaving of the workers and in whatever
      order the channels are printed, the output file loads as exactly one record for every channel
      and month of the input, with the printed statistics of its rows. */
  lemma EveryRunPrintsTheFold(data: seq<Byte>, begin: nat, lines: seq<Line>, ranges: seq<Range>)
    returns (chunks: seq<seq<Row>>)
    requires ContestInput(lines) && CleanLines(lines) && begin <= |data| && data[begin..|data|] == Body(lines)
    requires Partition(data, begin, |data|, ranges) && |ranges| >= 1
    ensures |chunks| == |ranges| && Flatten(chunks) == RowsOf(lines) && Contract(chunks)
    ensures forall schedule, orders, order :: RunPrints(RowsOf(lines), chunks, schedule, orders, order)
  {
    chunks := EveryCutAndRun(data, begin, lines, ranges);
    LinesArePrintable(lines);
    forall schedule, orders, order ensures RunPrints(RowsOf(lines), chunks, schedule, orders, order) {
      assert EndsExact(chunks, schedule, orders);
      if Schedules(chunks, schedule) && Joined(Run(chunks, schedule)) {
        JoinedPrints(RowsOf(lines), chunks, Run(chunks, schedule), orders, order);
      }
    }
  }

  // ---- The reference generator -------------------------------------------------------

  /** The generator's map. */
  function GeneratorGroups(dict: seq<Key>, aggs: seq<GoMap.GoStats>): Groups {
    Groups(dict, seq(|aggs|, i requires 0 <= i < |aggs| => GoMap.StatOf(aggs[i])))
  }

  lemma GeneratorHolds(rows: seq<Row>, dict: seq<Key>, aggs: seq<GoMap.GoStats>)
    requires GoAnalyze.HoldsFold(dict, aggs, rows) && Distinct(dict)
    ensures HoldsGroups(rows, GeneratorGroups(dict, aggs))
  {
    var g := GeneratorGroups(dict, aggs);
    forall id: nat, month: nat | id < |g.dict| && month < MONTHS
      ensures g.stats[Slot(id, month)] == At(rows, g.dict[id], month)
    {
      IndexOfAt(dict, id);
      assert GoMap.Holds(dict, aggs, dict[id], month) == At(rows, dict[id], month);
    }
    forall channel: Key, month: nat | channel !in g.dict || month >= MONTHS ensures At(rows, channel, month) == None {
      assert GoMap.Holds(dict, aggs, channel, month) == At(rows, channel, month);
    }
  }

  /** A group as the generator has it. */
  function AccOf(s: GoMap.GoStats): Acc { Acc(s.minLen, s.total, s.maxLen, s.messages, s.stamps) }

  /** The appends of writeResult: strconv's decimal numerals, and its nearest two-digit decimal of the
      float64 quotient. */
  method ExpectedLine(channel: Key, month: nat, s: GoMap.GoStats) returns (line: seq<Byte>)
    requires RecOk(Rec(channel, month, AccOf(s)))
    ensures line == RecordLine(PairOf(Rec(channel, month, AccOf(s))).key, PairOf(Rec(channel, month, AccOf(s))).value)
  {
    line := channel + [COMMA] + Label(month) + [EQUALS];
    var average := FixedText(FormatFixed2Cents(Divide(s.total, s.messages)));
    var mean := (Numeral(s.minLen) + [SLASH]) + (average + [SLASH]);
    var counts := (Numeral(s.maxLen) + [SLASH]) + ((Numeral(s.messages) + [SLASH]) + Numeral(s.stamps));
    ValueText(AccOf(s));
    line := line + (mean + counts) + [LF];
  }

  /** What place p of the generator's walk adds to the text. */
  lemma ExpectedNext(dict: seq<Key>, aggs: seq<GoMap.GoStats>, order: seq<nat>, p: nat, id: nat, month: nat)
    requires Writable(GeneratorGroups(dict, aggs)) && p < MONTHS * |order|
    requires forall k :: 0 <= k < |order| ==> order[k] < |dict|
    requires id == order[p / MONTHS] && month == p % MONTHS
    ensures id < |dict| && Slot(id, month) < |aggs|
    ensures var s := aggs[Slot(id, month)];
            if s.messages == 0 then
              TextUpTo(GeneratorGroups(dict, aggs), order, p + 1) == TextUpTo(GeneratorGroups(dict, aggs), order, p)
            else
              && RecOk(Rec(dict[id], month, AccOf(s)))
              && TextUpTo(GeneratorGroups(dict, aggs), order, p + 1) ==
                 TextUpTo(GeneratorGroups(dict, aggs), order, p) +
                 RecordLine(PairOf(Rec(dict[id], month, AccOf(s))).key, PairOf(Rec(dict[id], month, AccOf(s))).value)
  {
    PrintedNext(GeneratorGroups(dict, aggs), order, p);
  }

  /** Place p of the walk. */
  method WritePlace(dict: seq<Key>, aggs: seq<GoMap.GoStats>, order: seq<nat>, p: nat, file: seq<Byte>)
    returns (file': seq<Byte>)
    requires Writable(GeneratorGroups(dict, aggs)) && p < MONTHS * |order|
    requires forall k :: 0 <= k < |order| ==> order[k] < |dict|
    requires file == TextUpTo(GeneratorGroups(dict, aggs), order, p)
    ensures file' == TextUpTo(GeneratorGroups(dict, aggs), order, p + 1)
  {
    var id, month := order[p / MONTHS], p % MONTHS;
    ExpectedNext(dict, aggs, order, p, id, month);
    var s := aggs[MONTHS * id + month];
    if s.messages == 0 {
      return file;
    }
    var line := ExpectedLine(dict[id], month, s);
    file' := file + line;
  }

  /** The loops of writeResult. */
  method WriteLines(dict: seq<Key>, aggs: seq<GoMap.GoStats>, order: seq<nat>) returns (file: seq<Byte>)
    requires Writable(GeneratorGroups(dict, aggs)) && forall k :: 0 <= k < |order| ==> order[k] < |dict|
    ensures file == TextOf(PairsOf(Printed(GeneratorGroups(dict, aggs), order, MONTHS * |order|)))
  {
    file := [];
    for p := 0 to MONTHS * |order|
      invariant file == TextUpTo(GeneratorGroups(dict, aggs), order, p)
    {
      file := WritePlace(dict, aggs, order, p, file);
    }
  }

  /** writeResult of the generator: the printed groups, in any order of the channels, each line saying
      what its group holds. */
  method WriteExpected(dict: seq<Key>, aggs: seq<GoMap.GoStats>, order: seq<nat>) returns (file: seq<Byte>)
    requires Writable(GeneratorGroups(dict, aggs)) && forall k :: 0 <= k < |order| ==> order[k] < |dict|
    ensures file == TextOf(PairsOf(Printed(GeneratorGroups(dict, aggs), order, MONTHS * |order|)))
    ensures FileSays(file, Printed(GeneratorGroups(dict, aggs), order, MONTHS * |order|))
  {
    file := WriteLines(dict, aggs, order);
    PrintedSays(GeneratorGroups(dict, aggs), order);
  }

  /** For messages of fewer than 65,536 characters the generator's file and the analyzer's load as the
      same records, so the contest's comparison passes; in whatever order either prints. */
  lemma GeneratorAgrees(lines: seq<Line>, dict: seq<Key>, aggs: seq<GoMap.GoStats>, first: seq<nat>, t: Table,
                        second: seq<nat>)
    requires ContestInput(lines) && CleanLines(lines) && GoAnalyze.Short(RowsOf(lines))
    requires GoAnalyze.HoldsRows(dict, aggs, RowsOf(lines)) && Distinct(dict) && Visits(first, |dict|)
    requires HoldsChunk(RowsOf(lines), t) && Visits(second, |t.dict|)
    ensures Writable(GeneratorGroups(dict, aggs)) && Writable(GroupsOf(t))
    ensures LoadedFile(GeneratorGroups(dict, aggs), first).Records?
    ensures LoadedFile(GeneratorGroups(dict, aggs), first) == LoadedFile(GroupsOf(t), second)
  {
    LinesArePrintable(lines);
    GoAnalyze.HoldsFoldExactly(dict, aggs, RowsOf(lines));
    GeneratorHolds(RowsOf(lines), dict, aggs);
    TableGroups(RowsOf(lines), t);
    SameRowsSameRecords(RowsOf(lines), GeneratorGroups(dict, aggs), first, GroupsOf(t), second);
  }
}
