/** The meaning of the contest: group CSV rows by channel and month and keep, for every
    group, the least and greatest message length, the summed length, the number of rows
    and the summed stamps.  Every analyzer in the repository must agree with this fold. */
module ReferenceFold {
  type Byte = x: int | 0 <= x < 256
  type Key = seq<Byte>
  type Word32 = x: int | 0 <= x < 0x1_0000_0000

  const MONTHS := 12
  const WORD32_LIMIT := 0x1_0000_0000

  datatype Option<+T> = None | Some(value: T)

  datatype Row = Row(channel: Key, month: nat, length: nat, stamps: nat)

  datatype Acc = Acc(min: nat, total: nat, max: nat, count: nat, stamps: nat)

  /** The statistics of one group; a group without rows has none. */
  type Stat = Option<Acc>

  function Single(length: nat, stamps: nat): Stat {
    Some(Acc(length, length, length, 1, stamps))
  }

  function Min(a: nat, b: nat): nat { if a < b then a else b }

  function Max(a: nat, b: nat): nat { if a < b then b else a }

  function Merge(a: Stat, b: Stat): Stat {
    if a.None? then b
    else if b.None? then a
    else Some(Acc(Min(a.value.min, b.value.min), a.value.total + b.value.total, Max(a.value.max, b.value.max),
                  a.value.count + b.value.count, a.value.stamps + b.value.stamps))
  }

  function RowStat(r: Row, channel: Key, month: nat): Stat {
    if r.channel == channel && r.month == month then Single(r.length, r.stamps) else None
  }

  /** The statistics of the group (channel, month) over `rows`. */
  function At(rows: seq<Row>, channel: Key, month: nat): Stat {
    if |rows| == 0 then None
    else Merge(At(rows[..|rows| - 1], channel, month), RowStat(rows[|rows| - 1], channel, month))
  }

  lemma MergeLaws(a: Stat, b: Stat, c: Stat)
    ensures Merge(a, b) == Merge(b, a)
    ensures Merge(Merge(a, b), c) == Merge(a, Merge(b, c))
  {
  }

  lemma AtSnoc(rows: seq<Row>, r: Row, channel: Key, month: nat)
    ensures At(rows + [r], channel, month) == Merge(At(rows, channel, month), RowStat(r, channel, month))
  {
    assert (rows + [r])[..|rows|] == rows;
  }

  /** Splitting the rows and merging the parts' statistics loses nothing. */
  lemma {:induction false} AtConcat(a: seq<Row>, b: seq<Row>, channel: Key, month: nat)
    ensures At(a + b, channel, month) == Merge(At(a, channel, month), At(b, channel, month))
  {
    if |b| == 0 {
      assert a + b == a;
    } else {
      var last := b[|b| - 1];
      AtConcat(a, b[..|b| - 1], channel, month);
      assert a + b == (a + b[..|b| - 1]) + [last];
      AtSnoc(a + b[..|b| - 1], last, channel, month);
      MergeLaws(At(a, channel, month), At(b[..|b| - 1], channel, month), RowStat(last, channel, month));
    }
  }

  /** Concatenation of the rows of all chunks. */
  function Flatten<T>(chunks: seq<seq<T>>): seq<T> {
    if |chunks| == 0 then [] else Flatten(chunks[..|chunks| - 1]) + chunks[|chunks| - 1]
  }

  lemma {:induction false} FlattenMember<T>(chunks: seq<seq<T>>, w: nat, i: nat)
    requires w < |chunks| && i < |chunks[w]|
    ensures chunks[w][i] in Flatten(chunks)
  {
    if w < |chunks| - 1 {
      FlattenMember(chunks[..|chunks| - 1], w, i);
    }
  }

  // ---- What the numbers of a group say about its rows --------------------------------

  predicate InGroup(r: Row, channel: Key, month: nat) {
    r.channel == channel && r.month == month
  }

  function Select(rows: seq<Row>, channel: Key, month: nat): seq<Row> {
    if |rows| == 0 then []
    else
      var rest := Select(rows[..|rows| - 1], channel, month);
      if InGroup(rows[|rows| - 1], channel, month) then rest + [rows[|rows| - 1]] else rest
  }

  function SumLengths(rows: seq<Row>): nat {
    if |rows| == 0 then 0 else SumLengths(rows[..|rows| - 1]) + rows[|rows| - 1].length
  }

  function SumStamps(rows: seq<Row>): nat {
    if |rows| == 0 then 0 else SumStamps(rows[..|rows| - 1]) + rows[|rows| - 1].stamps
  }

  /** Every row of a group lies between these lengths, and some rows have them. */
  ghost predicate Extrema(own: seq<Row>, min: nat, max: nat) {
    && (forall i :: 0 <= i < |own| ==> min <= own[i].length <= max)
    && (exists i :: 0 <= i < |own| && own[i].length == min)
    && (exists i :: 0 <= i < |own| && own[i].length == max)
  }

  lemma ExtremaNext(prev: seq<Row>, last: Row, min: nat, max: nat)
    requires Extrema(prev, min, max)
    ensures Extrema(prev + [last], Min(min, last.length), Max(max, last.length))
  {
    var own := prev + [last];
    var lo :| 0 <= lo < |prev| && prev[lo].length == min;
    var hi :| 0 <= hi < |prev| && prev[hi].length == max;
    assert own[lo].length == min && own[hi].length == max && own[|prev|].length == last.length;
  }

  lemma ExtremaOne(row: Row)
    ensures Extrema([row], row.length, row.length)
  {
    assert [row][0].length == row.length;
  }

  /** `At` is exactly the count, sums and attained extrema of the group's own rows. */
  lemma {:induction false} AtMeaning(rows: seq<Row>, channel: Key, month: nat)
    ensures var own := Select(rows, channel, month);
            var stat := At(rows, channel, month);
            && (stat.None? <==> own == [])
            && (stat.Some? ==>
                && stat.value.count == |own|
                && stat.value.total == SumLengths(own)
                && stat.value.stamps == SumStamps(own)
                && Extrema(own, stat.value.min, stat.value.max))
  {
    if |rows| > 0 {
      var front, last := rows[..|rows| - 1], rows[|rows| - 1];
      AtMeaning(front, channel, month);
      var prev := Select(front, channel, month);
      if InGroup(last, channel, month) {
        assert (prev + [last])[..|prev|] == prev;
        if prev == [] {
          ExtremaOne(last);
        } else {
          var was := At(front, channel, month).value;
          ExtremaNext(prev, last, was.min, was.max);
        }
      }
    }
  }

  // ---- The table a sequential analyzer builds ----------------------------------------

  /** What one row does to the table of groups in a sequential analyzer. */
  function Absorb(table: map<(Key, nat), Acc>, r: Row): map<(Key, nat), Acc> {
    var group := (r.channel, r.month);
    if group !in table then table[group := Acc(r.length, r.length, r.length, 1, r.stamps)]
    else
      var e := table[group];
      table[group := Acc(if r.length < e.min then r.length else e.min, e.total + r.length,
                         if r.length > e.max then r.length else e.max, e.count + 1, e.stamps + r.stamps)]
  }

  ghost predicate Represents(table: map<(Key, nat), Acc>, rows: seq<Row>) {
    forall channel: Key, month: nat ::
      At(rows, channel, month) == if (channel, month) in table then Some(table[(channel, month)]) else None
  }

  /** The baseline analyzer: one table, rows in file order. */
  method Analyze(rows: seq<Row>) returns (table: map<(Key, nat), Acc>)
    ensures Represents(table, rows)
  {
    table := map[];
    var i := 0;
    while i < |rows|
      invariant 0 <= i <= |rows|
      invariant Represents(table, rows[..i])
    {
      var r := rows[i];
      var before := table;
      table := Absorb(table, r);
      forall channel: Key, month: nat
        ensures At(rows[..i + 1], channel, month) ==
                if (channel, month) in table then Some(table[(channel, month)]) else None
      {
        assert rows[..i + 1] == rows[..i] + [r];
        AtSnoc(rows[..i], r, channel, month);
        assert At(rows[..i], channel, month) ==
               if (channel, month) in before then Some(before[(channel, month)]) else None;
      }
      i := i + 1;
    }
    assert rows[..i] == rows;
  }
}
