/** From the bytes of the input file to the merged map, for any number of workers. */
module Program {
  import opened ReferenceFold
  import opened Cells
  import opened Tables
  import Months
  import opened Csv
  import opened Rows
  import opened Chunks
  import opened Publication
  import opened Merging
  import opened Runs

  ghost predicate AllValid(pieces: seq<seq<Line>>) { forall i :: 0 <= i < |pieces| ==> ValidLines(pieces[i]) }

  function ChunkRows(pieces: seq<seq<Line>>): (chunks: seq<seq<Row>>)
    requires forall i :: 0 <= i < |pieces| ==> ValidLines(pieces[i])
    ensures |chunks| == |pieces|
  {
    seq(|pieces|, i requires 0 <= i < |pieces| => RowsOf(pieces[i]))
  }

  lemma {:induction false} FlattenValid(pieces: seq<seq<Line>>)
    requires AllValid(pieces)
    ensures ValidLines(Flatten(pieces))
    ensures Flatten(ChunkRows(pieces)) == RowsOf(Flatten(pieces))
  {
    if |pieces| > 0 {
      var front, last := pieces[..|pieces| - 1], pieces[|pieces| - 1];
      FlattenValid(front);
      assert ChunkRows(pieces)[..|pieces| - 1] == ChunkRows(front);
      assert Flatten(pieces) == Flatten(front) + last;
      RowsOfConcat(Flatten(front), last);
    }
  }

  /** The published guarantees for the rows of the file. */
  ghost predicate ContestInput(lines: seq<Line>) {
    && ValidLines(lines)
    && |ChannelsOf(RowsOf(lines))| <= CONTEST_CHANNELS
    && forall channel: Key, month: nat :: Fits(At(RowsOf(lines), channel, month))
  }

  lemma LinesKeepContract(lines: seq<Line>, chunks: seq<seq<Row>>)
    requires ContestInput(lines) && Flatten(chunks) == RowsOf(lines) && |chunks| >= 1
    ensures Contract(chunks)
  {
    forall r | r in Flatten(chunks) ensures r.month < MONTHS && r.length >= 1 {
      var i :| 0 <= i < |lines| && RowsOf(lines)[i] == r;
      RowInRange(lines[i]);
    }
  }

  lemma RowInRange(line: Line)
    requires ValidLine(line)
    ensures RowOf(line).month < MONTHS && RowOf(line).length >= 1
  {
    Months.MonthOfMeaning(Decimal(line.timestamp));
  }

  /** A run of these workers, once all have finished, merges to the exact result. */
  ghost predicate EndsExact(chunks: seq<seq<Row>>, schedule: seq<Turn>, orders: seq<seq<nat>>)
    requires Contract(chunks)
  {
    Schedules(chunks, schedule) && Joined(Run(chunks, schedule)) ==> MergesExactly(chunks, Run(chunks, schedule), orders)
  }

  /** However the file is cut at line feeds and whatever the interleaving, the workers' pieces
      are whole rows and the merged map is the sequential fold of the file's rows. */
  lemma EveryCutAndRun(data: seq<Byte>, begin: nat, lines: seq<Line>, ranges: seq<Range>) returns (chunks: seq<seq<Row>>)
    requires ContestInput(lines) && begin <= |data| && data[begin..|data|] == Body(lines)
    requires Partition(data, begin, |data|, ranges) && |ranges| >= 1
    ensures |chunks| == |ranges| && Flatten(chunks) == RowsOf(lines) && Contract(chunks)
    ensures forall schedule, orders :: EndsExact(chunks, schedule, orders)
  {
    var pieces, rest := PiecesAreRows(data, begin, |data|, ranges, |data|, lines);
    EmptyBody(rest);
    assert Flatten(pieces) == lines;
    FlattenValid(pieces);
    chunks := ChunkRows(pieces);
    LinesKeepContract(lines, chunks);
    forall schedule, orders ensures EndsExact(chunks, schedule, orders) {
      if Schedules(chunks, schedule) && Joined(Run(chunks, schedule)) {
        ParallelEqualsSequential(chunks, schedule, orders);
      }
    }
  }
}
