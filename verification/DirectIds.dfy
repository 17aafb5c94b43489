/** The three direct-ID tables of the optimized C analyzer: each maps some bits of a hash to
    a channel's ID, or to a sentinel once two channels collide. */
module DirectIds {
  import opened ReferenceFold
  import opened Cells

  const FAST_CAPACITY := 0x4_0000
  const FAST2_CAPACITY := 0x1_0000
  const FAST3_CAPACITY := 0x1_0000

  const COLLISION: Word16 := 0xFFFF

  datatype Which = First | Second | Third

  function Capacity(which: Which): nat {
    match which
    case First => FAST_CAPACITY
    case Second => FAST2_CAPACITY
    case Third => FAST3_CAPACITY
  }

  /** Low bits, high bits, and high bits of a multiplicative remix. */
  function Index(which: Which, hash: Word32): (i: nat)
    ensures i < Capacity(which)
  {
    match which
    case First => hash % FAST_CAPACITY
    case Second => hash / 0x1_0000
    case Third => (hash * 0x9e37_79b1) % WORD32_LIMIT / 0x1_0000
  }

  /** IDs below this bound fit a 16-bit cell as three times the ID plus one. */
  const MAX_IDS := 0x4000

  function Slot3(id: nat): Word16
    requires id < MAX_IDS
  {
    id * 3 + 1
  }

  /** What map_insert writes when channel `id` indexes a cell. */
  function Claimed(cell: Word16, id: nat): Word16
    requires id < MAX_IDS
  {
    if cell != 0 then COLLISION else Slot3(id)
  }

  /** The cell after the channels with these hashes were inserted in order. */
  function CellOf(hashes: seq<Word32>, which: Which, c: nat): Word16
    requires |hashes| <= MAX_IDS
  {
    if |hashes| == 0 then 0
    else
      var before := CellOf(hashes[..|hashes| - 1], which, c);
      if Index(which, hashes[|hashes| - 1]) == c then Claimed(before, |hashes| - 1) else before
  }

  /** How many channels index the cell. */
  function Users(hashes: seq<Word32>, which: Which, c: nat): nat {
    if |hashes| == 0 then 0
    else Users(hashes[..|hashes| - 1], which, c) + if Index(which, hashes[|hashes| - 1]) == c then 1 else 0
  }

  /** A cell is zero, an ID or the sentinel exactly as no, one or several channels index it;
      the ID is that of the one channel. */
  lemma {:induction false} CellMeaning(hashes: seq<Word32>, which: Which, c: nat)
    requires |hashes| <= MAX_IDS
    ensures CellOf(hashes, which, c) == 0 <==> Users(hashes, which, c) == 0
    ensures CellOf(hashes, which, c) == COLLISION <==> Users(hashes, which, c) >= 2
    ensures forall id :: 0 <= id < |hashes| && Index(which, hashes[id]) == c ==>
              CellOf(hashes, which, c) == Slot3(id) || CellOf(hashes, which, c) == COLLISION
    ensures Users(hashes, which, c) == 1 ==>
              exists id :: 0 <= id < |hashes| && Index(which, hashes[id]) == c && CellOf(hashes, which, c) == Slot3(id)
  {
    if |hashes| > 0 {
      var front := hashes[..|hashes| - 1];
      CellMeaning(front, which, c);
      if Index(which, hashes[|hashes| - 1]) != c && Users(front, which, c) == 1 {
        var id :| 0 <= id < |front| && Index(which, front[id]) == c && CellOf(front, which, c) == Slot3(id);
        assert hashes[id] == front[id];
      }
      forall id | 0 <= id < |hashes| && Index(which, hashes[id]) == c
        ensures CellOf(hashes, which, c) == Slot3(id) || CellOf(hashes, which, c) == COLLISION
      {
        if id < |front| {
          assert front[id] == hashes[id];
        }
      }
    }
  }

  ghost predicate TableOk(table: seq<Word16>, which: Which, hashes: seq<Word32>) {
    && |hashes| <= MAX_IDS
    && |table| == Capacity(which)
    && forall c :: 0 <= c < |table| ==> table[c] == CellOf(hashes, which, c)
  }

  /** One insertion updates one cell and keeps every other. */
  lemma InsertKeepsTable(table: seq<Word16>, which: Which, hashes: seq<Word32>, hash: Word32)
    requires TableOk(table, which, hashes) && |hashes| < MAX_IDS
    ensures TableOk(table[Index(which, hash) := Claimed(table[Index(which, hash)], |hashes|)], which, hashes + [hash])
  {
  }

  /** A cell read for a known channel is its ID or the sentinel, never another ID or zero. */
  lemma KnownChannel(table: seq<Word16>, which: Which, hashes: seq<Word32>, id: nat)
    requires TableOk(table, which, hashes) && id < |hashes|
    ensures var cell := table[Index(which, hashes[id])]; cell == Slot3(id) || cell == COLLISION
  {
    CellMeaning(hashes, which, Index(which, hashes[id]));
  }
}
