/** One accumulator of the optimized C analyzer: three 32-bit counters, a 16-bit minimum and
    a 16-bit complemented maximum, next to an optional 32-bit side entry for message lengths
    that do not fit.  An accumulator stands for one group of ReferenceFold. */
module Cells {
  import opened ReferenceFold

  type Word16 = x: int | 0 <= x < 0x1_0000

  const NO_SAMPLE: Word16 := 0xFFFF

  /** Unsigned 32-bit addition, wrapping modulo 2^32. */
  function Add32(a: Word32, b: Word32): Word32 {
    if a + b >= WORD32_LIMIT then a + b - WORD32_LIMIT else a + b
  }

  function MinWord(a: Word16, b: Word16): Word16 { if a < b then a else b }

  // ---- The accumulator ---------------------------------------------------------------

  /** The struct Stats of the C program, in field order. */
  datatype Stats = Stats(total: Word32, stamps: Word32, messages: Word32, minLen: Word16, invMaxLen: Word16)

  /** A 32-bit side entry; maxLen == 0 means no long message yet. */
  datatype Wide = Wide(minLen: Word32, maxLen: Word32)

  datatype Cell = Cell(narrow: Stats, wide: Wide)

  const EMPTY_STATS := Stats(0, 0, 0, NO_SAMPLE, NO_SAMPLE)
  const NO_WIDE := Wide(0, 0)
  const EMPTY_CELL := Cell(EMPTY_STATS, NO_WIDE)

  /** What stats_add does with the increment of a row; module Lanes derives it from the
      vector instructions. */
  function StatsAdd(s: Stats, length: Word16, stamps: Word32): Stats {
    Stats(Add32(s.total, length), Add32(s.stamps, stamps), Add32(s.messages, 1), MinWord(s.minLen, length),
          MinWord(s.invMaxLen, NO_SAMPLE - length))
  }

  function WideAdd(w: Wide, length: Word32): Wide {
    if w.maxLen == 0 then Wide(length, length)
    else Wide(if length < w.minLen then length else w.minLen, if length > w.maxLen then length else w.maxLen)
  }

  /** The three scalar counter updates of stats_add_wide. */
  function CountWide(s: Stats, length: Word32, stamps: Word32): Stats {
    s.(total := Add32(s.total, length), stamps := Add32(s.stamps, stamps), messages := Add32(s.messages, 1))
  }

  /** What one row does to its accumulator: lengths up to 65534 stay packed. */
  function CellAdd(c: Cell, length: Word32, stamps: Word32): Cell {
    if length >= NO_SAMPLE then Cell(CountWide(c.narrow, length, stamps), WideAdd(c.wide, length))
    else Cell(StatsAdd(c.narrow, length, stamps), c.wide)
  }

  function MergeStats(y: Stats, x: Stats): Stats {
    if y.messages == 0 then x
    else Stats(Add32(x.total, y.total), Add32(x.stamps, y.stamps), Add32(x.messages, y.messages),
               MinWord(x.minLen, y.minLen), MinWord(x.invMaxLen, y.invMaxLen))
  }

  function MergeWide(y: Wide, x: Wide): Wide {
    if x.maxLen == 0 then y
    else if y.maxLen == 0 then x
    else Wide(if x.minLen < y.minLen then x.minLen else y.minLen, if x.maxLen > y.maxLen then x.maxLen else y.maxLen)
  }

  /** Merging accumulator x into y. */
  function MergeCell(y: Cell, x: Cell): Cell {
    if x.narrow.messages == 0 then y else Cell(MergeStats(y.narrow, x.narrow), MergeWide(y.wide, x.wide))
  }

  // ---- What an accumulator stands for ------------------------------------------------

  function OutMin(c: Cell): Word32 {
    if c.wide.maxLen != 0 && c.narrow.minLen == NO_SAMPLE then c.wide.minLen else c.narrow.minLen
  }

  function OutMax(c: Cell): Word32 {
    if c.wide.maxLen != 0 then c.wide.maxLen else NO_SAMPLE - c.narrow.invMaxLen
  }

  /** The group statistics the output stage recovers from an accumulator. */
  function Value(c: Cell): Stat {
    if c.narrow.messages == 0 then None
    else Some(Acc(OutMin(c), c.narrow.total, OutMax(c), c.narrow.messages, c.narrow.stamps))
  }

  predicate HasNarrow(c: Cell) { c.narrow.minLen != NO_SAMPLE }

  predicate Valid(c: Cell) {
    && (c.narrow.messages == 0 ==> c == EMPTY_CELL)
    && (c.narrow.messages != 0 ==> HasNarrow(c) || c.wide.maxLen != 0)
    && (HasNarrow(c) ==> 1 <= c.narrow.minLen <= NO_SAMPLE - c.narrow.invMaxLen < NO_SAMPLE)
    && (!HasNarrow(c) ==> c.narrow.invMaxLen == NO_SAMPLE)
    && (c.wide.maxLen != 0 ==> NO_SAMPLE <= c.wide.minLen <= c.wide.maxLen)
    && (c.wide.maxLen == 0 ==> c.wide == NO_WIDE)
  }

  /** The published input guarantee: every group total fits an unsigned 32-bit integer. */
  predicate Fits(s: Stat) {
    s.Some? ==> s.value.total < WORD32_LIMIT && s.value.count < WORD32_LIMIT && s.value.stamps < WORD32_LIMIT
  }

  lemma FitsPart(a: Stat, b: Stat)
    requires Fits(Merge(a, b))
    ensures Fits(a) && Fits(b)
  {
  }

  /** Packed or wide, one update of an accumulator is one step of the reference fold. */
  lemma CellAddRefines(c: Cell, length: Word32, stamps: Word32)
    requires Valid(c) && length >= 1
    requires Fits(Merge(Value(c), Single(length, stamps)))
    ensures Valid(CellAdd(c, length, stamps))
    ensures Value(CellAdd(c, length, stamps)) == Merge(Value(c), Single(length, stamps))
  {
  }

  /** Merging two accumulators merges what they stand for. */
  lemma MergeCellRefines(y: Cell, x: Cell)
    requires Valid(x) && Valid(y)
    requires Fits(Merge(Value(y), Value(x)))
    ensures Valid(MergeCell(y, x))
    ensures Value(MergeCell(y, x)) == Merge(Value(y), Value(x))
  {
  }
}
