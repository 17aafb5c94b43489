/** The 128-bit vector instructions behind stats_add and the two merges: what one vector
    update does to the counters and the two packed extrema of an accumulator. */
module Lanes {
  import opened ReferenceFold
  import opened Cells

  const WORD_BITS: nat := 16

  // ---- The 128-bit vector ------------------------------------------------------------

  /** A 32-bit lane as its low and high 16-bit words. */
  datatype Lane = Lane(low: Word16, high: Word16)

  /** Four 32-bit lanes, lane 0 lowest in memory. */
  datatype Vec = Vec(d0: Lane, d1: Lane, d2: Lane, d3: Lane)

  function Number(l: Lane): Word32 { l.low + 0x1_0000 * l.high }

  /** The low word of a + b + carry. */
  function AddWord(a: Word16, b: Word16, carry: bool): Word16 {
    var sum := a + b + if carry then 1 else 0;
    if sum >= 0x1_0000 then sum - 0x1_0000 else sum
  }

  function AddLane(a: Lane, b: Lane): Lane {
    Lane(AddWord(a.low, b.low, false), AddWord(a.high, b.high, a.low + b.low >= 0x1_0000))
  }

  /** The word pair of a lane adds like the 32-bit number it spells. */
  lemma AddLaneMeaning(a: Lane, b: Lane)
    ensures Number(AddLane(a, b)) == Add32(Number(a), Number(b))
  {
  }

  /** _mm_add_epi32 */
  function AddEpi32(a: Vec, b: Vec): Vec {
    Vec(AddLane(a.d0, b.d0), AddLane(a.d1, b.d1), AddLane(a.d2, b.d2), AddLane(a.d3, b.d3))
  }

  function MinLane(a: Lane, b: Lane): Lane { Lane(MinWord(a.low, b.low), MinWord(a.high, b.high)) }

  /** _mm_min_epu16 */
  function MinEpu16(a: Vec, b: Vec): Vec {
    Vec(MinLane(a.d0, b.d0), MinLane(a.d1, b.d1), MinLane(a.d2, b.d2), MinLane(a.d3, b.d3))
  }

  function Pow2(n: nat): nat { if n == 0 then 1 else 2 * Pow2(n - 1) }

  /** Bit i of x. */
  function Bit(x: nat, i: nat): nat { if i == 0 then x % 2 else Bit(x / 2, i - 1) }

  /** The number whose binary digits are `bits`, least significant first. */
  function FromBits(bits: seq<nat>): nat {
    if |bits| == 0 then 0 else bits[0] + 2 * FromBits(bits[1..])
  }

  /** Bit 4a+2b+c of the immediate 0x35 = 0b00110101. */
  function TernaryBit(a: nat, b: nat, c: nat): nat {
    var index := 4 * a + 2 * b + c;
    if index == 0 || index == 2 || index == 4 || index == 5 then 1 else 0
  }

  /** _mm_ternarylogic_epi32 with immediate 0x35, on n-bit words. */
  function Ternary(a: nat, b: nat, c: nat, n: nat): nat {
    FromBits(seq(n, i requires 0 <= i < n => TernaryBit(Bit(a, i), Bit(b, i), Bit(c, i))))
  }

  lemma TernaryStep(a: nat, b: nat, c: nat, n: nat)
    requires n > 0
    ensures Ternary(a, b, c, n) == TernaryBit(a % 2, b % 2, c % 2) + 2 * Ternary(a / 2, b / 2, c / 2, n - 1)
  {
    var bits := seq(n, i requires 0 <= i < n => TernaryBit(Bit(a, i), Bit(b, i), Bit(c, i)));
    var rest := seq(n - 1, i requires 0 <= i < n - 1 => TernaryBit(Bit(a / 2, i), Bit(b / 2, i), Bit(c / 2, i)));
    forall i | 0 <= i < n - 1 ensures bits[1..][i] == rest[i] {
      assert bits[i + 1] == TernaryBit(Bit(a, i + 1), Bit(b, i + 1), Bit(c, i + 1));
    }
    assert bits[1..] == rest;
  }

  lemma {:induction false} TernaryBound(a: nat, b: nat, c: nat, n: nat)
    ensures Ternary(a, b, c, n) < Pow2(n)
  {
    if n > 0 {
      TernaryStep(a, b, c, n);
      TernaryBound(a / 2, b / 2, c / 2, n - 1);
    }
  }

  lemma OddMask(n: nat)
    requires n > 0
    ensures (Pow2(n) - 1) / 2 == Pow2(n - 1) - 1 && (Pow2(n) - 1) % 2 == 1
  {
  }

  lemma {:induction false} TernaryOnes(a: nat, n: nat)
    ensures Ternary(a, 0, 0, n) == Pow2(n) - 1
  {
    if n > 0 {
      TernaryOnes(a / 2, n - 1);
      TernaryStep(a, 0, 0, n);
      assert a % 2 == 0 || a % 2 == 1;
      assert TernaryBit(a % 2, 0, 0) == 1;
    }
  }

  lemma {:induction false} TernarySame(a: nat, n: nat)
    requires a < Pow2(n)
    ensures Ternary(a, 0, Pow2(n) - 1, n) == a
  {
    if n > 0 {
      TernarySame(a / 2, n - 1);
      OddMask(n);
      TernaryStep(a, 0, Pow2(n) - 1, n);
    }
  }

  lemma {:induction false} TernaryComplement(a: nat, n: nat)
    requires a < Pow2(n)
    ensures Ternary(a, Pow2(n) - 1, 0, n) == Pow2(n) - 1 - a
  {
    if n > 0 {
      TernaryComplement(a / 2, n - 1);
      OddMask(n);
      TernaryStep(a, Pow2(n) - 1, 0, n);
    }
  }

  lemma Pow2Word()
    ensures Pow2(WORD_BITS) == 0x1_0000
  {
    assert Pow2(4) == 16;
    assert Pow2(8) == 256;
    assert Pow2(12) == 4096;
  }

  function TernaryWord(a: Word16, b: Word16, c: Word16): Word16 {
    Pow2Word();
    TernaryBound(a, b, c, WORD_BITS);
    Ternary(a, b, c, WORD_BITS)
  }

  /** The vector stats_add takes the minimum with: the increment's length broadcast to all
      eight words, selected by all-ones masks in word 7 and in word 6. */
  function Candidate(increment: Vec): Vec {
    var length := increment.d0.low;
    var rest := Lane(TernaryWord(length, 0, 0), TernaryWord(length, 0, 0));
    Vec(rest, rest, rest, Lane(TernaryWord(length, 0, 0xFFFF), TernaryWord(length, 0xFFFF, 0)))
  }

  const ALL_ONES := Lane(0xFFFF, 0xFFFF)

  /** Words 0..5 hold the identity of the unsigned minimum, word 6 the length and word 7 its
      complement. */
  lemma CandidateWords(increment: Vec)
    ensures Candidate(increment) ==
            Vec(ALL_ONES, ALL_ONES, ALL_ONES, Lane(increment.d0.low, NO_SAMPLE - increment.d0.low))
  {
    Pow2Word();
    TernaryOnes(increment.d0.low, WORD_BITS);
    TernarySame(increment.d0.low, WORD_BITS);
    TernaryComplement(increment.d0.low, WORD_BITS);
  }

  // ---- Accumulators in vector form ---------------------------------------------------

  const ZERO := Lane(0, 0)

  /** The sixteen bytes of the struct, three counters and then the two extrema words. */
  predicate Denotes(v: Vec, s: Stats) {
    && Number(v.d0) == s.total && Number(v.d1) == s.stamps && Number(v.d2) == s.messages
    && v.d3 == Lane(s.minLen, s.invMaxLen)
  }

  /** The vector a row contributes: length, stamps, one message, nothing in the extrema. */
  predicate DenotesIncrement(v: Vec, length: Word32, stamps: Word32, messages: Word32) {
    Number(v.d0) == length && Number(v.d1) == stamps && Number(v.d2) == messages && v.d3 == ZERO
  }

  /** stats_add */
  function VectorAdd(accumulator: Vec, increment: Vec): Vec {
    MinEpu16(AddEpi32(accumulator, increment), Candidate(increment))
  }

  /** _mm_blend_epi16 with mask 0xc0: words 6 and 7 from the second operand. */
  function Blend(a: Vec, b: Vec): Vec { a.(d3 := b.d3) }

  /** The merge of two non-empty accumulators. */
  function VectorMerge(x: Vec, y: Vec): Vec { Blend(AddEpi32(x, y), MinEpu16(x, y)) }

  lemma VectorAddLanes(accumulator: Vec, increment: Vec)
    requires increment.d3 == ZERO
    ensures VectorAdd(accumulator, increment) ==
            Vec(AddLane(accumulator.d0, increment.d0), AddLane(accumulator.d1, increment.d1),
                AddLane(accumulator.d2, increment.d2),
                Lane(MinWord(accumulator.d3.low, increment.d0.low),
                     MinWord(accumulator.d3.high, NO_SAMPLE - increment.d0.low)))
  {
    CandidateWords(increment);
  }

  lemma LowWord(l: Lane)
    requires Number(l) < 0x1_0000
    ensures l.low == Number(l)
  {
  }

  /** The vector update of a length below 65536 is the scalar update of every field: no
      carry and no minimum leaks from one field into another. */
  lemma VectorAddRefines(v: Vec, s: Stats, increment: Vec, length: Word16, stamps: Word32, messages: Word32)
    requires Denotes(v, s) && DenotesIncrement(increment, length, stamps, messages)
    ensures Denotes(VectorAdd(v, increment),
                    Stats(Add32(s.total, length), Add32(s.stamps, stamps), Add32(s.messages, messages),
                          MinWord(s.minLen, length), MinWord(s.invMaxLen, NO_SAMPLE - length)))
  {
    VectorAddLanes(v, increment);
    LowWord(increment.d0);
    AddLaneMeaning(v.d0, increment.d0);
    AddLaneMeaning(v.d1, increment.d1);
    AddLaneMeaning(v.d2, increment.d2);
  }

  /** A row's vector update is StatsAdd. */
  lemma StatsAddIsVectorAdd(v: Vec, s: Stats, increment: Vec, length: Word16, stamps: Word32)
    requires Denotes(v, s) && DenotesIncrement(increment, length, stamps, 1)
    ensures Denotes(VectorAdd(v, increment), StatsAdd(s, length, stamps))
  {
    VectorAddRefines(v, s, increment, length, stamps, 1);
  }

  /** Draining an empty queue position into the dummy accumulator lowers its minimum to
      zero: the dummy is not an empty group and must never become a real accumulator. */
  lemma DummyIsSpoiled(v: Vec, s: Stats)
    requires Denotes(v, s)
    ensures Denotes(VectorAdd(v, Vec(ZERO, ZERO, ZERO, ZERO)), s.(minLen := 0))
  {
    VectorAddRefines(v, s, Vec(ZERO, ZERO, ZERO, ZERO), 0, 0, 0);
  }

  /** The vector merge is the scalar merge of two non-empty accumulators. */
  lemma MergeStatsIsVectorMerge(x: Vec, y: Vec, sx: Stats, sy: Stats)
    requires Denotes(x, sx) && Denotes(y, sy) && sy.messages != 0
    ensures Denotes(VectorMerge(x, y), MergeStats(sy, sx))
  {
  }
}
