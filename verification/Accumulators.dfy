/** A worker's accumulators in memory: packed statistics for every channel and month, a side
    table for long messages that exists only once it is needed, and the delayed writes. */
module Accumulators {
  import opened ReferenceFold
  import opened Cells
  import opened Tables
  import opened Queues

  const WIDE_CELLS := 0x4000 * MONTHS

  /** A pending_stats pointer, None for the dummy on the stack, with its increment vector. */
  datatype Delayed = Delayed(stats: Option<nat>, length: Word16, stamps: Word32, messages: Word32)

  const NOTHING := Delayed(None, 0, 0, 0)

  /** calloc's zeroed struct, before map_insert sets the two extrema sentinels. */
  const ZEROED := Stats(0, 0, 0, 0, 0)

  /** The queued increment a delayed write stands for. */
  ghost predicate StandsFor(d: Delayed, p: Pending) {
    match p
    case Idle => d == NOTHING
    case Queued(id, month, length, stamps) => length < NO_SAMPLE && d == Delayed(Some(Slot(id, month)), length, stamps, 1)
  }

  /** What the vector update does to the struct it points to. */
  function VectorUpdate(s: Stats, d: Delayed): Stats {
    Stats(Add32(s.total, d.length), Add32(s.stamps, d.stamps), Add32(s.messages, d.messages),
          MinWord(s.minLen, d.length), MinWord(s.invMaxLen, NO_SAMPLE - d.length))
  }

  class Aggregates {
    const aggs: array<Stats>
    var wide: array?<Wide>

    ghost predicate Ok()
      reads this
    {
      aggs.Length <= WIDE_CELLS && (wide != null ==> wide.Length == WIDE_CELLS)
    }

    ghost function Cells(): (cells: seq<Cell>)
      requires Ok()
      reads this, aggs, wide
      ensures |cells| == aggs.Length
    {
      seq(aggs.Length, i requires 0 <= i < aggs.Length && Ok() reads this, aggs, wide =>
        Cell(aggs[i], if wide == null then NO_WIDE else wide[i]))
    }

    /** map_init_aggs: empty accumulators for a closed set of channels. */
    constructor (channels: nat)
      requires channels <= 0x4000
      ensures Ok() && fresh(aggs) && wide == null
      ensures Cells() == seq(MONTHS * channels, i => EMPTY_CELL)
    {
      aggs := new Stats[MONTHS * channels](i => EMPTY_STATS);
      wide := null;
      new;
      assert Cells() == seq(MONTHS * channels, i => EMPTY_CELL);
    }

    /** map_init: zeroed accumulators for every channel that may be discovered. */
    constructor Zeroed()
      ensures Ok() && fresh(aggs) && wide == null
      ensures Cells() == seq(WIDE_CELLS, i => Cell(ZEROED, NO_WIDE))
    {
      aggs := new Stats[WIDE_CELLS](i => ZEROED);
      wide := null;
      new;
      assert Cells() == seq(WIDE_CELLS, i => Cell(ZEROED, NO_WIDE));
    }

    /** stats_add_wide: counts a long message at once. */
    method AddWide(id: nat, month: nat, length: Word32, stamps: Word32)
      requires Ok() && month < MONTHS && Slot(id, month) < aggs.Length && length >= NO_SAMPLE
      modifies this, aggs, wide
      ensures Ok() && (wide == old(wide) || fresh(wide))
      ensures Cells() == old(Cells())[Slot(id, month) := CellAdd(old(Cells())[Slot(id, month)], length, stamps)]
    {
      ghost var before, i := Cells(), Slot(id, month);
      if wide == null {
        wide := new Wide[WIDE_CELLS](j => NO_WIDE);
        assert Cells() == before;
      }
      wide[MONTHS * id + month] := WideAdd(wide[MONTHS * id + month], length);
      aggs[MONTHS * id + month] := CountWide(aggs[MONTHS * id + month], length, stamps);
      assert Cells() == before[i := CellAdd(before[i], length, stamps)];
    }

    /** stats_add through a pending pointer.  Whatever the dummy holds afterwards, no real
        accumulator has changed. */
    method WriteBack(d: Delayed, dummy: Stats, ghost p: Pending) returns (dummy': Stats)
      requires Ok() && StandsFor(d, p) && (p.Queued? ==> p.month < MONTHS && Slot(p.id, p.month) < aggs.Length)
      modifies aggs
      ensures Ok()
      ensures p == Idle ==> Cells() == old(Cells())
      ensures p.Queued? ==>
                Cells() == old(Cells())[Slot(p.id, p.month) :=
                             CellAdd(old(Cells())[Slot(p.id, p.month)], p.length, p.stamps)]
    {
      ghost var before := Cells();
      match d.stats {
        case None =>
          dummy' := VectorUpdate(dummy, d);
        case Some(i) =>
          dummy' := dummy;
          aggs[i] := VectorUpdate(aggs[i], d);
          assert Cells() == before[i := CellAdd(before[i], p.length, p.stamps)];
      }
    }
  }
}
