/** The published parsing loop on bytes: five delayed writes between reading a row and
    updating its accumulator, over segments that cover a worker's remaining rows once. */
module Steady {
  import opened ReferenceFold
  import opened Cells
  import opened Tables
  import opened Queues
  import opened Months
  import opened Csv
  import opened Keys
  import opened Decode
  import opened Rows
  import opened DirectIds
  import opened Dictionary
  import opened Accumulators
  import opened Publication

  // ---- The rows of a segment, one after the other ------------------------------------

  predicate KnownRow(dict: seq<Key>, row: Row) { row.channel in dict && RowOk(row) }

  ghost predicate Known(dict: seq<Key>, rows: seq<Row>) {
    forall i :: 0 <= i < |rows| ==> KnownRow(dict, rows[i])
  }

  /** Table and queue after the parsing loop has read these rows, all of known channels. */
  ghost function Consumed(t: Table, queue: seq<Pending>, rows: seq<Row>): (r: (Table, seq<Pending>))
    requires |t.cells| == MONTHS * |t.dict| && |queue| == 5 && QueueOk(queue, |t.dict|)
    ensures r.0.dict == t.dict && |r.0.cells| == |t.cells| && |r.1| == 5 && QueueOk(r.1, |t.dict|)
  {
    if |rows| == 0 then (t, queue)
    else
      var (front, delayed) := Consumed(t, queue, rows[..|rows| - 1]);
      var row := rows[|rows| - 1];
      if KnownRow(t.dict, row)
      then Consume(front, delayed, IndexOf(t.dict, row.channel), row.month, row.length, row.stamps)
      else (front, delayed)
  }

  lemma EmptyQueueOk(channels: nat)
    ensures |EMPTY_QUEUE| == 5 && QueueOk(EMPTY_QUEUE, channels)
  {
  }

  /** Table and queue of a segment after these rows. */
  ghost function Counted(t: Table, rows: seq<Row>): (r: (Table, seq<Pending>))
    requires |t.cells| == MONTHS * |t.dict|
    ensures r.0.dict == t.dict && |r.0.cells| == |t.cells| && |r.1| == 5 && QueueOk(r.1, |t.dict|)
  {
    EmptyQueueOk(|t.dict|);
    Consumed(t, EMPTY_QUEUE, rows)
  }

  ghost predicate RoomFor(t: Table, queue: seq<Pending>, rows: seq<Row>)
    requires Shaped(t)
  {
    forall id: nat, month: nat :: id < |t.dict| && month < MONTHS ==>
                                    Fits(Merge(Holds(t, queue, id, month), At(rows, t.dict[id], month)))
  }

  lemma RoomForFront(t: Table, queue: seq<Pending>, rows: seq<Row>)
    requires Shaped(t) && |rows| > 0 && RoomFor(t, queue, rows)
    ensures RoomFor(t, queue, rows[..|rows| - 1])
  {
  }

  /** At every row, the accumulators together with the queued increments are exactly the fold
      of the rows read so far. */
  lemma {:induction false} ConsumedCounts(t: Table, queue: seq<Pending>, rows: seq<Row>)
    requires Shaped(t) && |queue| == 5 && QueueOk(queue, |t.dict|) && Known(t.dict, rows) && RoomFor(t, queue, rows)
    ensures var (u, delayed) := Consumed(t, queue, rows);
            && Shaped(u)
            && forall id: nat, month: nat :: id < |t.dict| && month < MONTHS ==>
                 Holds(u, delayed, id, month) == Merge(Holds(t, queue, id, month), At(rows, t.dict[id], month))
  {
    if |rows| > 0 {
      var front, row := rows[..|rows| - 1], rows[|rows| - 1];
      RoomForFront(t, queue, rows);
      ConsumedCounts(t, queue, front);
      var (u, delayed) := Consumed(t, queue, front);
      var own := IndexOf(t.dict, row.channel);
      forall id: nat, month: nat | id < |t.dict| && month < MONTHS
        ensures Merge(Holds(u, delayed, id, month), RowStat(row, t.dict[id], month)) ==
                Merge(Holds(t, queue, id, month), At(rows, t.dict[id], month))
        ensures Fits(Merge(Holds(u, delayed, id, month), RowStat(row, t.dict[id], month)))
      {
        MergeLaws(Holds(t, queue, id, month), At(front, t.dict[id], month), RowStat(row, t.dict[id], month));
        assert Fits(Merge(Holds(t, queue, id, month), At(rows, t.dict[id], month)));
      }
      forall id: nat, month: nat | id < |t.dict| && month < MONTHS ensures Fits(Holds(u, delayed, id, month)) {
        FitsPart(Holds(u, delayed, id, month), RowStat(row, t.dict[id], month));
      }
      ConsumeCounts(u, delayed, own, row.month, row.length, row.stamps);
      forall id: nat | id < |t.dict| && t.dict[id] == row.channel ensures id == own {
      }
    }
  }

  /** What row number i still waits to have written: nothing if there is no such row, or if its length
      was too wide to wait. */
  ghost function Waiting(dict: seq<Key>, rows: seq<Row>, i: int): Pending
    requires i < |rows| && Known(dict, rows)
  {
    if i < 0 || rows[i].length >= 65535 then Idle
    else Queued(IndexOf(dict, rows[i].channel), rows[i].month, rows[i].length, rows[i].stamps)
  }

  /** After every row exactly the last five rows wait, in their order. */
  lemma {:induction false} QueueIsLastFive(t: Table, rows: seq<Row>, k: nat)
    requires |t.cells| == MONTHS * |t.dict| && Known(t.dict, rows) && k < 5
    ensures Counted(t, rows).1[k] == Waiting(t.dict, rows, |rows| - 5 + k)
  {
    EmptyQueueOk(|t.dict|);
    if |rows| > 0 {
      var front, row := rows[..|rows| - 1], rows[|rows| - 1];
      assert KnownRow(t.dict, row);
      if k < 4 {
        QueueIsLastFive(t, front, k + 1);
      }
    }
  }

  // ---- One row -----------------------------------------------------------------------

  const STATS_BYTES := 16

  /** A row's accumulator as the struct offset from the scaled ID: 64 bytes less than 64 times
      the stored value, plus one struct per month. */
  function StatsIndex(slot3: Word16, month: nat): nat
    requires slot3 >= 1
  {
    (slot3 as int * 64 - 64) / STATS_BYTES + month
  }

  lemma StatsIndexIsSlot(id: nat, month: nat)
    requires id < MAX_IDS
    ensures StatsIndex(Slot3(id), month) == Slot(id, month)
    ensures (Slot3(id) as int - 1) / 3 == id
  {
  }

  /** What is queued after a row. */
  ghost function Newest(id: nat, row: Row): Pending
    requires RowOk(row)
  {
    if row.length >= NO_SAMPLE then Idle else Queued(id, row.month, row.length, row.stamps)
  }

  /** Delays a decoded row, or counts it at once when its length needs 32 bits. */
  method Delay(worker: Aggregates, slot3: Word16, month: nat, length: Word32, stamps: Word32, ghost id: nat)
    returns (newest: Delayed)
    requires worker.Ok() && month < MONTHS && id < MAX_IDS && Slot(id, month) < worker.aggs.Length && slot3 == Slot3(id)
    requires length >= 1
    modifies worker, worker.aggs, worker.wide
    ensures worker.Ok() && (worker.wide == old(worker.wide) || fresh(worker.wide))
    ensures length >= NO_SAMPLE ==> newest == NOTHING && worker.Cells() == old(worker.Cells())[Slot(id, month) :=
                                      CellAdd(old(worker.Cells())[Slot(id, month)], length, stamps)]
    ensures length < NO_SAMPLE ==>
              newest == Delayed(Some(Slot(id, month)), length, stamps, 1) && worker.Cells() == old(worker.Cells())
  {
    StatsIndexIsSlot(id, month);
    if length >= NO_SAMPLE {
      worker.AddWide((slot3 as int - 1) / 3, month, length, stamps);
      newest := NOTHING;
    } else {
      newest := Delayed(Some(StatsIndex(slot3, month)), length, stamps, 1);
    }
  }

  /** Writes the oldest delayed increment, then delays the row just read. */
  method WriteAndDelay(worker: Aggregates, oldest: Delayed, dummy: Stats, slot3: Word16, month: nat, length: Word32,
                       stamps: Word32, ghost dict: seq<Key>, ghost queue: seq<Pending>, ghost id: nat, ghost row: Row)
    returns (newest: Delayed, dummy': Stats)
    requires worker.Ok() && worker.aggs.Length == MONTHS * |dict| && id < |dict| && id < MAX_IDS
    requires RowOk(row) && slot3 == Slot3(id) && month == row.month && length == row.length && stamps == row.stamps
    requires |queue| == 5 && QueueOk(queue, |dict|) && StandsFor(oldest, queue[0])
    modifies worker, worker.aggs, worker.wide
    ensures worker.Ok() && (worker.wide == old(worker.wide) || fresh(worker.wide))
    ensures StandsFor(newest, Newest(id, row))
    ensures (Table(dict, worker.Cells()), queue[1..] + [Newest(id, row)]) ==
            Consume(Table(dict, old(worker.Cells())), queue, id, row.month, row.length, row.stamps)
  {
    ghost var t := Table(dict, worker.Cells());
    dummy' := worker.WriteBack(oldest, dummy, queue[0]);
    assert Table(dict, worker.Cells()) == Drain(t, queue[0]);
    newest := Delay(worker, slot3, month, length, stamps, id);
  }

  /** One row of the published loop, once it has been read. */
  method SteadyRow(dictionary: FlatMap, worker: Aggregates, key: Key, hash: Word32, month: nat, length: Word32,
                   stamps: Word32, oldest: Delayed, dummy: Stats, ghost queue: seq<Pending>, ghost row: Row)
    returns (newest: Delayed, dummy': Stats)
    requires RowOk(row) && key == row.channel && month == row.month && length == row.length && stamps == row.stamps
    requires dictionary.Indexed() && key in dictionary.dict && hash == HashKey(key, dictionary.crc)
    requires worker.Ok() && worker.aggs.Length == MONTHS * |dictionary.dict|
    requires |queue| == 5 && QueueOk(queue, |dictionary.dict|) && StandsFor(oldest, queue[0])
    modifies worker, worker.aggs, worker.wide
    ensures worker.Ok() && (worker.wide == old(worker.wide) || fresh(worker.wide))
    ensures StandsFor(newest, Newest(IndexOf(dictionary.dict, row.channel), row))
    ensures (Table(dictionary.dict, worker.Cells()), queue[1..] + [Newest(IndexOf(dictionary.dict, row.channel), row)]) ==
            Consume(Table(dictionary.dict, old(worker.Cells())), queue, IndexOf(dictionary.dict, row.channel), row.month,
                    row.length, row.stamps)
  {
    var slot3 := dictionary.FindPublished(key, hash);
    newest, dummy' := WriteAndDelay(worker, oldest, dummy, slot3.value, month, length, stamps, dictionary.dict, queue,
                                    IndexOf(dictionary.dict, row.channel), row);
  }

  // ---- A segment ---------------------------------------------------------------------

  /** Five pending pairs stand for the five queued increments, oldest first. */
  ghost predicate Stand(d0: Delayed, d1: Delayed, d2: Delayed, d3: Delayed, d4: Delayed, queue: seq<Pending>) {
    |queue| == 5 && StandsFor(d0, queue[0]) && StandsFor(d1, queue[1]) && StandsFor(d2, queue[2]) &&
    StandsFor(d3, queue[3]) && StandsFor(d4, queue[4])
  }

  /** The table after the n oldest increments were written. */
  ghost function Drained(t: Table, queue: seq<Pending>, n: nat): (r: Table)
    requires |t.cells| == MONTHS * |t.dict| && n <= |queue| && QueueOk(queue, |t.dict|)
    ensures r.dict == t.dict && |r.cells| == |t.cells|
  {
    if n == 0 then t else Drain(Drained(t, queue, n - 1), queue[n - 1])
  }

  lemma {:induction false} DrainedAll(t: Table, queue: seq<Pending>, n: nat)
    requires |t.cells| == MONTHS * |t.dict| && n <= |queue| && QueueOk(queue, |t.dict|)
    ensures DrainAll(t, queue) == DrainAll(Drained(t, queue, n), queue[n..])
  {
    if n > 0 {
      DrainedAll(t, queue, n - 1);
      assert queue[n - 1..][1..] == queue[n..];
    }
  }

  /** The five closing stats_add calls. */
  method DrainFive(worker: Aggregates, d0: Delayed, d1: Delayed, d2: Delayed, d3: Delayed, d4: Delayed, dummy: Stats,
                   ghost dict: seq<Key>, ghost queue: seq<Pending>)
    requires worker.Ok() && worker.aggs.Length == MONTHS * |dict|
    requires Stand(d0, d1, d2, d3, d4, queue) && QueueOk(queue, |dict|)
    modifies worker.aggs
    ensures worker.Ok()
    ensures Table(dict, worker.Cells()) == DrainAll(Table(dict, old(worker.Cells())), queue)
  {
    ghost var t := Table(dict, worker.Cells());
    var last := worker.WriteBack(d0, dummy, queue[0]);
    assert Table(dict, worker.Cells()) == Drained(t, queue, 1);
    last := worker.WriteBack(d1, last, queue[1]);
    assert Table(dict, worker.Cells()) == Drained(t, queue, 2);
    last := worker.WriteBack(d2, last, queue[2]);
    assert Table(dict, worker.Cells()) == Drained(t, queue, 3);
    last := worker.WriteBack(d3, last, queue[3]);
    assert Table(dict, worker.Cells()) == Drained(t, queue, 4);
    last := worker.WriteBack(d4, last, queue[4]);
    assert Table(dict, worker.Cells()) == Drained(t, queue, 5);
    DrainedAll(t, queue, 5);
  }

  lemma AfterRow(t: Table, rows: seq<Row>, k: nat)
    requires |t.cells| == MONTHS * |t.dict| && k < |rows| && KnownRow(t.dict, rows[k])
    ensures var (u, queue) := Counted(t, rows[..k]);
            Counted(t, rows[..k + 1]) ==
            Consume(u, queue, IndexOf(t.dict, rows[k].channel), rows[k].month, rows[k].length, rows[k].stamps)
  {
    assert rows[..k + 1][..k] == rows[..k];
  }

  /** Row k of a segment. */
  method SegmentRow(dictionary: FlatMap, worker: Aggregates, key: Key, hash: Word32, month: nat, length: Word32,
                    stamps: Word32, oldest: Delayed, dummy: Stats, ghost t: Table, ghost rows: seq<Row>, ghost k: nat,
                    ghost queue: seq<Pending>)
    returns (newest: Delayed, dummy': Stats, ghost later: seq<Pending>)
    requires k < |rows| && KnownRow(dictionary.dict, rows[k])
    requires key == rows[k].channel && month == rows[k].month && length == rows[k].length && stamps == rows[k].stamps
    requires dictionary.Indexed() && hash == HashKey(key, dictionary.crc)
    requires worker.Ok() && worker.aggs.Length == MONTHS * |dictionary.dict|
    requires t.dict == dictionary.dict && |t.cells| == worker.aggs.Length
    requires (Table(dictionary.dict, worker.Cells()), queue) == Counted(t, rows[..k])
    requires StandsFor(oldest, queue[0])
    modifies worker, worker.aggs, worker.wide
    ensures worker.Ok() && (worker.wide == old(worker.wide) || fresh(worker.wide))
    ensures (Table(dictionary.dict, worker.Cells()), later) == Counted(t, rows[..k + 1])
    ensures |queue| == |later| == 5 && later[..4] == queue[1..] && StandsFor(newest, later[4])
  {
    AfterRow(t, rows, k);
    newest, dummy' := SteadyRow(dictionary, worker, key, hash, month, length, stamps, oldest, dummy, queue, rows[k]);
    later := queue[1..] + [Newest(IndexOf(dictionary.dict, rows[k].channel), rows[k])];
  }

  /** One turn of the loop: row k is read and delayed. */
  method SegmentStep(mem: seq<Byte>, p: nat, ghost begin: nat, ghost end: nat, dictionary: FlatMap, worker: Aggregates,
                     monthByPeriod: array<nat>, oldest: Delayed, dummy: Stats, ghost t: Table, ghost rows: seq<Row>,
                     ghost spellings: seq<Spelling>, ghost spots: seq<nat>, ghost k: nat, ghost queue: seq<Pending>)
    returns (next: nat, newest: Delayed, dummy': Stats, ghost later: seq<Pending>)
    requires Laid(mem, begin, end, rows, spellings, spots) && PeriodTable(monthByPeriod[..])
    requires k < |rows| && p == spots[k] && KnownRow(dictionary.dict, rows[k])
    requires dictionary.Indexed() && worker.Ok() && worker.aggs.Length == MONTHS * |dictionary.dict|
    requires t.dict == dictionary.dict && |t.cells| == worker.aggs.Length
    requires (Table(dictionary.dict, worker.Cells()), queue) == Counted(t, rows[..k])
    requires StandsFor(oldest, queue[0])
    modifies worker, worker.aggs, worker.wide
    ensures worker.Ok() && (worker.wide == old(worker.wide) || fresh(worker.wide))
    ensures next == spots[k + 1]
    ensures (Table(dictionary.dict, worker.Cells()), later) == Counted(t, rows[..k + 1])
    ensures |queue| == |later| == 5 && later[..4] == queue[1..] && StandsFor(newest, later[4])
  {
    var month, key, hash, length, stamps;
    month, key, hash, length, stamps, next :=
      ReadNext(mem, p, monthByPeriod, dictionary.crc, begin, end, rows, spellings, spots, k);
    newest, dummy', later := SegmentRow(dictionary, worker, key, hash, month, length, stamps, oldest, dummy, t, rows, k,
                                        queue);
  }

  /** The loop of analyze_steady_segment: rows are read and delayed by five. */
  method SegmentRows(mem: seq<Byte>, begin: nat, end: nat, dictionary: FlatMap, worker: Aggregates,
                     monthByPeriod: array<nat>, ghost t: Table, ghost rows: seq<Row>, ghost spellings: seq<Spelling>,
                     ghost spots: seq<nat>)
    returns (d0: Delayed, d1: Delayed, d2: Delayed, d3: Delayed, d4: Delayed, dummy: Stats, ghost queue: seq<Pending>)
    requires Laid(mem, begin, end, rows, spellings, spots) && PeriodTable(monthByPeriod[..])
    requires dictionary.Indexed() && Known(dictionary.dict, rows)
    requires worker.Ok() && worker.aggs.Length == MONTHS * |dictionary.dict|
    requires t == Table(dictionary.dict, worker.Cells())
    modifies worker, worker.aggs, worker.wide
    ensures worker.Ok() && (worker.wide == old(worker.wide) || fresh(worker.wide))
    ensures (Table(dictionary.dict, worker.Cells()), queue) == Counted(t, rows)
    ensures Stand(d0, d1, d2, d3, d4, queue)
  {
    ghost var k := 0;
    queue := EMPTY_QUEUE;
    var p := begin;
    d0, d1, d2, d3, d4, dummy := NOTHING, NOTHING, NOTHING, NOTHING, NOTHING, EMPTY_STATS;
    while p < end
      invariant 0 <= k <= |rows| && p == spots[k]
      invariant worker.Ok() && (worker.wide == old(worker.wide) || fresh(worker.wide))
      invariant (Table(dictionary.dict, worker.Cells()), queue) == Counted(t, rows[..k])
      invariant Stand(d0, d1, d2, d3, d4, queue)
      decreases |rows| - k
    {
      LaidBefore(mem, begin, end, rows, spellings, spots, k);
      var newest;
      p, newest, dummy, queue := SegmentStep(mem, p, begin, end, dictionary, worker, monthByPeriod, d0, dummy, t, rows,
                                             spellings, spots, k, queue);
      d0, d1, d2, d3, d4 := d1, d2, d3, d4, newest;
      k := k + 1;
    }
    LaidBefore(mem, begin, end, rows, spellings, spots, k);
    assert rows[..k] == rows;
  }

  /** analyze_steady_segment: rows are read, delayed by five, and all written at the end. */
  method Segment(mem: seq<Byte>, begin: nat, end: nat, dictionary: FlatMap, worker: Aggregates, monthByPeriod: array<nat>,
                 ghost rows: seq<Row>, ghost spellings: seq<Spelling>, ghost spots: seq<nat>)
    requires Laid(mem, begin, end, rows, spellings, spots) && PeriodTable(monthByPeriod[..])
    requires dictionary.Indexed() && Known(dictionary.dict, rows)
    requires worker.Ok() && worker.aggs.Length == MONTHS * |dictionary.dict|
    modifies worker, worker.aggs, worker.wide
    ensures worker.Ok() && (worker.wide == old(worker.wide) || fresh(worker.wide))
    ensures var (u, queue) := Counted(Table(dictionary.dict, old(worker.Cells())), rows);
            Table(dictionary.dict, worker.Cells()) == DrainAll(u, queue)
  {
    ghost var t := Table(dictionary.dict, worker.Cells());
    var d0, d1, d2, d3, d4, dummy;
    ghost var queue;
    d0, d1, d2, d3, d4, dummy, queue :=
      SegmentRows(mem, begin, end, dictionary, worker, monthByPeriod, t, rows, spellings, spots);
    DrainFive(worker, d0, d1, d2, d3, d4, dummy, dictionary.dict, queue);
  }

  // ---- All remaining rows ------------------------------------------------------------

  /** u holds what t holds and these rows, group by group. */
  ghost predicate Adds(t: Table, u: Table, rows: seq<Row>)
    requires Shaped(t)
  {
    && Shaped(u) && u.dict == t.dict
    && forall id: nat, month: nat :: id < |t.dict| && month < MONTHS ==>
         Value(u.cells[Slot(id, month)]) == Merge(Value(t.cells[Slot(id, month)]), At(rows, t.dict[id], month))
  }

  ghost predicate Room(t: Table, rows: seq<Row>)
    requires Shaped(t)
  {
    forall id: nat, month: nat :: id < |t.dict| && month < MONTHS ==>
                                    Fits(Merge(Value(t.cells[Slot(id, month)]), At(rows, t.dict[id], month)))
  }

  lemma EmptyQueueOwesNothing(id: nat, month: nat)
    ensures Owed(EMPTY_QUEUE, id, month) == None
  {
    OwedNothing(EMPTY_QUEUE, id, month);
  }

  /** After the closing drain the accumulators alone hold the segment's fold. */
  lemma SegmentAdds(t: Table, rows: seq<Row>)
    requires Shaped(t) && Known(t.dict, rows) && Room(t, rows)
    ensures var (u, queue) := Counted(t, rows); Adds(t, DrainAll(u, queue), rows)
  {
    forall id: nat, month: nat | id < |t.dict| && month < MONTHS
      ensures Holds(t, EMPTY_QUEUE, id, month) == Value(t.cells[Slot(id, month)])
    {
      EmptyQueueOwesNothing(id, month);
    }
    ConsumedCounts(t, EMPTY_QUEUE, rows);
    var (u, queue) := Counted(t, rows);
    forall id: nat, month: nat | id < |t.dict| && month < MONTHS ensures Fits(Holds(u, queue, id, month)) {
      assert Fits(Merge(Value(t.cells[Slot(id, month)]), At(rows, t.dict[id], month)));
    }
    DrainAllKeeps(u, queue);
  }

  lemma AddsBoth(t: Table, u: Table, v: Table, a: seq<Row>, b: seq<Row>)
    requires Shaped(t) && Adds(t, u, a) && Adds(u, v, b)
    ensures Adds(t, v, a + b)
  {
    forall id: nat, month: nat | id < |t.dict| && month < MONTHS
      ensures Value(v.cells[Slot(id, month)]) == Merge(Value(t.cells[Slot(id, month)]), At(a + b, t.dict[id], month))
    {
      AtConcat(a, b, t.dict[id], month);
      MergeLaws(Value(t.cells[Slot(id, month)]), At(a, t.dict[id], month), At(b, t.dict[id], month));
      assert Value(u.cells[Slot(id, month)]) == Merge(Value(t.cells[Slot(id, month)]), At(a, t.dict[id], month));
    }
  }

  /** What is left fits on top of what has been added. */
  lemma RoomAfter(t: Table, u: Table, a: seq<Row>, b: seq<Row>, c: seq<Row>)
    requires Shaped(t) && Adds(t, u, a) && Room(t, a + b + c)
    ensures Room(u, b)
  {
    forall id: nat, month: nat | id < |t.dict| && month < MONTHS
      ensures Fits(Merge(Value(u.cells[Slot(id, month)]), At(b, t.dict[id], month)))
    {
      var x, channel := Value(t.cells[Slot(id, month)]), t.dict[id];
      AtConcat(a, b, channel, month);
      AtConcat(a + b, c, channel, month);
      assert Fits(Merge(x, At(a + b + c, channel, month)));
      MergeLaws(x, At(a + b, channel, month), At(c, channel, month));
      FitsPart(Merge(x, At(a + b, channel, month)), At(c, channel, month));
      MergeLaws(x, At(a, channel, month), At(b, channel, month));
      assert Value(u.cells[Slot(id, month)]) == Merge(x, At(a, channel, month));
    }
  }

  const SEGMENT_BYTES := 0x1000_0000

  /** Where the next segment ends: after the first line feed at least 256 MiB ahead, or at the
      end of the worker's rows. */
  method SegmentEnd(mem: seq<Byte>, p: nat, end: nat, ghost lines: seq<Line>) returns (cut: nat, ghost j: nat)
    requires LinesAt(mem, p, lines) && end == p + |Body(lines)| && p < end
    ensures p < cut <= end && 0 < j <= |lines|
    ensures end - p <= 0x1000_0000 ==> cut == end
    ensures end - p > 0x1000_0000 ==> FirstCut(mem, p + 0x1000_0000, end, cut)
    ensures LinesAt(mem, p, lines[..j]) && cut == p + |Body(lines[..j])|
    ensures LinesAt(mem, cut, lines[j..]) && cut + |Body(lines[j..])| == end
  {
    cut := end;
    if end - p > SEGMENT_BYTES {
      var feed := FindLineFeed(mem, p + SEGMENT_BYTES, end);
      if feed.Some? {
        cut := feed.value + 1;
      }
    }
    LastByte(lines);
    assert mem[end - 1] == mem[p..end][|Body(lines)| - 1];
    j := CutLines(mem, p, lines, cut);
  }

  /** One segment, in terms of the groups. */
  method CountSegment(mem: seq<Byte>, begin: nat, end: nat, dictionary: FlatMap, worker: Aggregates,
                      monthByPeriod: array<nat>, ghost lines: seq<Line>)
    requires LinesAt(mem, begin, lines) && end == begin + |Body(lines)| && PeriodTable(monthByPeriod[..])
    requires dictionary.Indexed() && Known(dictionary.dict, RowsOf(lines))
    requires worker.Ok() && worker.aggs.Length == MONTHS * |dictionary.dict|
    requires Shaped(Table(dictionary.dict, worker.Cells())) && Room(Table(dictionary.dict, worker.Cells()), RowsOf(lines))
    modifies worker, worker.aggs, worker.wide
    ensures worker.Ok() && (worker.wide == old(worker.wide) || fresh(worker.wide))
    ensures Adds(Table(dictionary.dict, old(worker.Cells())), Table(dictionary.dict, worker.Cells()), RowsOf(lines))
  {
    ghost var spots := LinesAreLaid(mem, begin, lines);
    SegmentAdds(Table(dictionary.dict, worker.Cells()), RowsOf(lines));
    Segment(mem, begin, end, dictionary, worker, monthByPeriod, RowsOf(lines), SpellingsOf(lines), spots);
  }

  /** The next rows are known and fit on top of the rows already counted. */
  lemma SegmentFits(t: Table, u: Table, done: seq<Row>, a: seq<Row>, b: seq<Row>)
    requires Shaped(t) && Adds(t, u, done) && Known(t.dict, done + (a + b)) && Room(t, done + (a + b))
    ensures Known(t.dict, a) && Room(u, a) && done + a + b == done + (a + b)
  {
    assert done + a + b == done + (a + b);
    RoomAfter(t, u, done, a, b);
    forall i | 0 <= i < |a| ensures KnownRow(t.dict, a[i]) {
      assert (done + (a + b))[|done| + i] == a[i];
    }
  }

  /** All rows, when these lines are still to be read from p to end. */
  ghost function Unread(mem: seq<Byte>, p: nat, end: nat, done: seq<Row>, rest: seq<Line>): (rows: Option<seq<Row>>) {
    if LinesAt(mem, p, rest) && end == p + |Body(rest)| then Some(done + RowsOf(rest)) else None
  }

  /** Whether these rows have been added to a table in memory. */
  ghost function AddedIn(worker: Aggregates, t: Table, rows: seq<Row>): (added: Option<seq<Row>>)
    reads worker, worker.aggs, worker.wide
  {
    if worker.Ok() && worker.aggs.Length == MONTHS * |t.dict| && Shaped(t) && Adds(t, Table(t.dict, worker.Cells()), rows)
    then Some(rows)
    else None
  }

  /** One turn of analyze_steady_rows. */
  method NextSegment(mem: seq<Byte>, p: nat, end: nat, dictionary: FlatMap, worker: Aggregates, monthByPeriod: array<nat>,
                     ghost t: Table, ghost rows: seq<Row>, ghost done: seq<Row>, ghost rest: seq<Line>)
    returns (cut: nat, ghost done': seq<Row>, ghost later: seq<Line>)
    requires Unread(mem, p, end, done, rest) == Some(rows) && p < end && PeriodTable(monthByPeriod[..])
    requires dictionary.Indexed() && Shaped(t) && t.dict == dictionary.dict
    requires AddedIn(worker, t, done).Some? && Known(t.dict, rows) && Room(t, rows)
    modifies worker, worker.aggs, worker.wide
    ensures worker.wide == old(worker.wide) || fresh(worker.wide)
    ensures p < cut && Unread(mem, cut, end, done', later) == Some(rows)
    ensures AddedIn(worker, t, done').Some?
  {
    ghost var j, before, part;
    cut, j := SegmentEnd(mem, p, end, rest);
    part, later, before := RowsOf(rest[..j]), rest[j..], Table(dictionary.dict, worker.Cells());
    done' := done + part;
    RowsOfSplit(rest, j);
    SegmentFits(t, before, done, part, RowsOf(later));
    CountSegment(mem, p, cut, dictionary, worker, monthByPeriod, rest[..j]);
    AddsBoth(t, before, Table(dictionary.dict, worker.Cells()), done, part);
  }

  lemma AddsNothing(t: Table)
    requires Shaped(t)
    ensures Adds(t, t, [])
  {
  }

  /** The loop of analyze_steady_rows. */
  method CountSegments(mem: seq<Byte>, begin: nat, end: nat, dictionary: FlatMap, worker: Aggregates,
                       monthByPeriod: array<nat>, ghost t: Table, ghost rows: seq<Row>, ghost lines: seq<Line>)
    requires Unread(mem, begin, end, [], lines) == Some(rows) && PeriodTable(monthByPeriod[..])
    requires dictionary.Indexed() && Shaped(t) && t.dict == dictionary.dict
    requires AddedIn(worker, t, []).Some? && Known(t.dict, rows) && Room(t, rows)
    modifies worker, worker.aggs, worker.wide
    ensures worker.wide == old(worker.wide) || fresh(worker.wide)
    ensures AddedIn(worker, t, rows).Some?
  {
    ghost var done: seq<Row>, rest := [], lines;
    var p := begin;
    while p < end
      invariant Unread(mem, p, end, done, rest) == Some(rows)
      invariant worker.wide == old(worker.wide) || fresh(worker.wide)
      invariant AddedIn(worker, t, done).Some?
      decreases end - p
    {
      p, done, rest := NextSegment(mem, p, end, dictionary, worker, monthByPeriod, t, rows, done, rest);
    }
    EmptyBody(rest);
    assert done == done + RowsOf(rest);
  }

  /** analyze_steady_rows: however the rows are cut into segments, every row is counted once. */
  method SteadyRows(mem: seq<Byte>, begin: nat, end: nat, dictionary: FlatMap, worker: Aggregates,
                    monthByPeriod: array<nat>, ghost lines: seq<Line>)
    requires LinesAt(mem, begin, lines) && end == begin + |Body(lines)| && PeriodTable(monthByPeriod[..])
    requires dictionary.Indexed() && Known(dictionary.dict, RowsOf(lines))
    requires worker.Ok() && worker.aggs.Length == MONTHS * |dictionary.dict|
    requires Shaped(Table(dictionary.dict, worker.Cells())) && Room(Table(dictionary.dict, worker.Cells()), RowsOf(lines))
    modifies worker, worker.aggs, worker.wide
    ensures worker.Ok() && (worker.wide == old(worker.wide) || fresh(worker.wide))
    ensures Adds(Table(dictionary.dict, old(worker.Cells())), Table(dictionary.dict, worker.Cells()), RowsOf(lines))
  {
    ghost var t := Table(dictionary.dict, worker.Cells());
    AddsNothing(t);
    assert [] + RowsOf(lines) == RowsOf(lines);
    CountSegments(mem, begin, end, dictionary, worker, monthByPeriod, t, RowsOf(lines), lines);
  }
}
