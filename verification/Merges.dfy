/** Re-keying and merging accumulators in memory: the loops over entries, channels and months
    behind the value-level operations of module Tables. */
module Merges {
  import opened ReferenceFold
  import opened Collections
  import opened Cells
  import opened Tables
  import opened DirectIds
  import opened Probing
  import opened Dictionary
  import opened Accumulators
  import opened Csv
  import opened Keys
  import opened Discovery
  import Publication

  /** Writes one accumulator, allocating the side table when the value needs it. */
  method Store(worker: Aggregates, i: nat, narrow: Stats, wide: Wide)
    requires worker.Ok() && i < worker.aggs.Length && (wide != NO_WIDE ==> worker.wide != null)
    modifies worker.aggs, worker.wide
    ensures worker.Ok() && worker.Cells() == old(worker.Cells())[i := Cell(narrow, wide)]
  {
    ghost var before := worker.Cells();
    worker.aggs[i] := narrow;
    if worker.wide != null {
      worker.wide[i] := wide;
    }
    assert worker.Cells() == before[i := Cell(narrow, wide)];
  }

  /** The side entry of an accumulator. */
  method WideAt(worker: Aggregates, i: nat) returns (w: Wide)
    requires worker.Ok() && i < worker.aggs.Length
    ensures worker.Cells()[i] == Cell(worker.aggs[i], w)
    ensures worker.wide == null ==> w == NO_WIDE
  {
    if worker.wide == null {
      w := NO_WIDE;
    } else {
      w := worker.wide[i];
    }
  }

  /** The side table is allocated once the other map has one. */
  method MakeWide(dst: Aggregates, src: Aggregates)
    requires dst.Ok() && src.Ok()
    modifies dst`wide
    ensures dst.Ok() && dst.Cells() == old(dst.Cells())
    ensures dst.wide == old(dst.wide) || (dst.wide != null && fresh(dst.wide))
    ensures src.wide != null ==> dst.wide != null
    ensures src.wide == null ==> dst.wide == old(dst.wide)
  {
    ghost var before := dst.Cells();
    if src.wide != null && dst.wide == null {
      dst.wide := new Wide[WIDE_CELLS](j => NO_WIDE);
      assert dst.Cells() == before;
    }
  }

  /** Two accumulators of different workers in memory. */
  ghost predicate Apart(dst: Aggregates, src: Aggregates)
    reads dst, src
  {
    && dst.Ok() && src.Ok() && dst != src && dst.aggs != src.aggs
    && (src.wide != null ==> dst.wide != null && dst.wide != src.wide)
  }

  /** One month: nothing for an empty source, a copy into an empty target, else the vector
      merge; then the side entries. */
  method MergeMonth(dst: Aggregates, i: nat, src: Aggregates, j: nat)
    requires Apart(dst, src) && i < dst.aggs.Length && j < src.aggs.Length
    modifies dst.aggs, dst.wide
    ensures Apart(dst, src) && src.Cells() == old(src.Cells())
    ensures dst.Cells() == old(dst.Cells())[i := MergeCell(old(dst.Cells())[i], src.Cells()[j])]
  {
    ghost var before, other := dst.Cells(), src.Cells();
    var x, y := src.aggs[j], dst.aggs[i];
    var wx := WideAt(src, j);
    var wy := WideAt(dst, i);
    if x.messages != 0 {
      Store(dst, i, Cells.MergeStats(y, x), Cells.MergeWide(wy, wx));
    } else {
      assert before[i := before[i]] == before;
    }
    assert src.Cells() == other;
  }

  /** The twelve months of a channel. */
  method MergeMonths(dst: Aggregates, to: nat, src: Aggregates, id: nat)
    requires Apart(dst, src) && Slot(to + 1, 0) <= dst.aggs.Length && Slot(id + 1, 0) <= src.aggs.Length
    modifies dst.aggs, dst.wide
    ensures Apart(dst, src) && src.Cells() == old(src.Cells())
    ensures dst.Cells() == MergeAt(old(dst.Cells()), to, src.Cells()[Slot(id, 0)..Slot(id + 1, 0)])
  {
    ghost var before, other := dst.Cells(), src.Cells();
    for month := 0 to MONTHS
      invariant Apart(dst, src) && src.Cells() == other && |dst.Cells()| == |before|
      invariant forall k :: 0 <= k < |before| ==>
                  dst.Cells()[k] == if Slot(to, 0) <= k < Slot(to, month) then MergeCell(before[k], other[Slot(id, 0) + k - Slot(to, 0)])
                                    else before[k]
    {
      MergeMonth(dst, Slot(to, month), src, Slot(id, month));
    }
    MergedMonths(before, dst.Cells(), to, other, id);
  }

  lemma MergedMonths(before: seq<Cell>, after: seq<Cell>, to: nat, other: seq<Cell>, id: nat)
    requires |after| == |before| && Slot(to + 1, 0) <= |before| && Slot(id + 1, 0) <= |other|
    requires forall k :: 0 <= k < |before| ==>
               after[k] == if Slot(to, 0) <= k < Slot(to, MONTHS) then MergeCell(before[k], other[Slot(id, 0) + k - Slot(to, 0)])
                           else before[k]
    ensures after == MergeAt(before, to, other[Slot(id, 0)..Slot(id + 1, 0)])
  {
  }

  /** map_merge_ids: accumulators of equal position, for every channel of the shared
      dictionary. */
  method MergeByIds(dst: Aggregates, src: Aggregates, channels: nat)
    requires dst.Ok() && src.Ok() && dst != src && dst.aggs != src.aggs && (src.wide != null ==> dst.wide != src.wide)
    requires dst.aggs.Length == src.aggs.Length == MONTHS * channels
    modifies dst, dst.aggs, dst.wide
    ensures dst.Ok() && src.Ok() && src.Cells() == old(src.Cells())
    ensures dst.Cells() == MergeCells(old(dst.Cells()), src.Cells())
    ensures dst.wide == old(dst.wide) || fresh(dst.wide)
  {
    ghost var before, other := dst.Cells(), src.Cells();
    MakeWide(dst, src);
    assert src.Cells() == other;
    for id := 0 to channels
      invariant Apart(dst, src) && src.Cells() == other && |dst.Cells()| == |before|
      invariant dst.wide == old(dst.wide) || (dst.wide != null && fresh(dst.wide))
      invariant forall k :: 0 <= k < |before| ==>
                  dst.Cells()[k] == if k < Slot(id, 0) then MergeCell(before[k], other[k]) else before[k]
    {
      ghost var cells := dst.Cells();
      MergeMonths(dst, id, src, id);
      MergedOneId(before, cells, other, id);
    }
    assert dst.Cells() == MergeCells(before, other);
  }

  lemma MergedOneId(before: seq<Cell>, cells: seq<Cell>, other: seq<Cell>, id: nat)
    requires |cells| == |before| == |other| && Slot(id + 1, 0) <= |before|
    requires forall k :: 0 <= k < |before| ==> cells[k] == if k < Slot(id, 0) then MergeCell(before[k], other[k]) else before[k]
    ensures forall k :: 0 <= k < |before| ==>
              MergeAt(cells, id, other[Slot(id, 0)..Slot(id + 1, 0)])[k] ==
              if k < Slot(id + 1, 0) then MergeCell(before[k], other[k]) else before[k]
  {
  }

  // ---- map_merge ---------------------------------------------------------------------

  /** The IDs in the order of their slots: the order in which map_merge meets the channels. */
  function SlotOrder(entries: seq<Option<Entry>>): seq<nat> {
    if |entries| == 0 then []
    else
      SlotOrder(entries[..|entries| - 1]) +
      match entries[|entries| - 1] case None => [] case Some(e) => [e.id]
  }

  lemma {:induction false} SlotOrderMembers(entries: seq<Option<Entry>>, id: nat)
    ensures id in SlotOrder(entries) <==> exists i :: 0 <= i < |entries| && entries[i].Some? && entries[i].value.id == id
  {
    if |entries| > 0 {
      SlotOrderMembers(entries[..|entries| - 1], id);
    }
  }

  /** Every full entry is at its ID's place, and every ID has one. */
  ghost predicate Places(entries: seq<Option<Entry>>, loc: map<nat, nat>, n: nat) {
    && (forall i :: 0 <= i < |entries| && entries[i].Some? ==>
          entries[i].value.id < n && entries[i].value.id in loc && loc[entries[i].value.id] == i)
    && (forall id :: 0 <= id < n ==>
          id in loc && loc[id] < |entries| && entries[loc[id]].Some? && entries[loc[id]].value.id == id)
  }

  lemma LocatesPlaces(entries: seq<Option<Entry>>, dict: seq<Key>, loc: map<nat, nat>, crc: Crc)
    requires Locates(entries, dict, loc, crc)
    ensures Places(entries, loc, |dict|)
  {
    forall i | 0 <= i < |entries| && entries[i].Some?
      ensures entries[i].value.id < |dict| && entries[i].value.id in loc && loc[entries[i].value.id] == i
    {
      SeenAt(entries, dict, loc, crc, i);
    }
    forall id | 0 <= id < |dict|
      ensures id in loc && loc[id] < |entries| && entries[loc[id]].Some? && entries[loc[id]].value.id == id
    {
      assert Ids(entries)[loc[id]] == Some(id);
    }
  }

  lemma {:induction false} SlotOrderDistinct(entries: seq<Option<Entry>>, n: nat, loc: map<nat, nat>, ids: nat)
    requires n <= |entries| && Places(entries, loc, ids)
    ensures Distinct(SlotOrder(entries[..n]))
  {
    if n > 0 {
      SlotOrderDistinct(entries, n - 1, loc, ids);
      assert entries[..n][..n - 1] == entries[..n - 1];
      if entries[n - 1].Some? {
        SlotOrderMembers(entries[..n - 1], entries[n - 1].value.id);
      }
    }
  }

  /** map_merge visits every channel exactly once. */
  lemma SlotOrderVisits(entries: seq<Option<Entry>>, loc: map<nat, nat>, n: nat)
    requires Places(entries, loc, n)
    ensures Visits(SlotOrder(entries), n)
  {
    var order := SlotOrder(entries);
    SlotOrderDistinct(entries, |entries|, loc, n);
    assert entries[..|entries|] == entries;
    forall k | 0 <= k < |order| ensures order[k] < n {
      assert order[k] in order;
      SlotOrderMembers(entries, order[k]);
    }
    forall id | 0 <= id < n ensures id in order {
      assert entries[loc[id]].Some?;
      SlotOrderMembers(entries, id);
    }
  }

  // ---- One channel of map_merge ------------------------------------------------------

  /** map_find within the published limits: neither capacity error occurs. */
  method FindWithin(map_: FlatMap, key: Key, hash: Word32) returns (id: nat)
    requires map_.Valid() && map_.aggCap == MAP_CAPACITY && hash == HashKey(key, map_.crc) && RoomForKey(map_.dict, key)
    modifies map_, map_.entries, map_.keys, map_.fast, map_.fast2, map_.fast3
    ensures id < |map_.dict| && map_.dict[id] == key
    ensures map_.dict == if key in old(map_.dict) then old(map_.dict) else old(map_.dict) + [key]
    ensures map_.Valid() && map_.aggCap == MAP_CAPACITY
  {
    var found := map_.Find(key, hash);
    id := found.value;
  }

  /** map_find on the target, with the accumulators of a new channel. */
  method FindChannel(map_: FlatMap, worker: Aggregates, key: Key, hash: Word32, ghost t: Table) returns (id: nat)
    requires Holding(map_, worker, t) && hash == HashKey(key, map_.crc) && RoomForKey(t.dict, key)
    modifies map_, map_.entries, map_.keys, map_.fast, map_.fast2, map_.fast3, worker.aggs
    ensures id < |map_.dict| && map_.dict[id] == key
    ensures Holding(map_, worker, Intern(t, key))
  {
    var before := map_.size;
    ghost var dict := map_.dict;
    id := FindWithin(map_, key, hash);
    assert Held(worker, dict, t);
    MakeRoom(worker, map_.size > before, before, dict, key, t);
  }

  /** Merging inside the used part of the cells. */
  lemma UsedMerge(dict: seq<Key>, cells: seq<Cell>, to: nat, x: seq<Cell>)
    requires MONTHS * |dict| <= |cells| && to < |dict| && |x| == MONTHS
    ensures Used(dict, MergeAt(cells, to, x)) == Table(dict, MergeAt(Used(dict, cells).cells, to, x))
    ensures Blank(cells, |dict|) ==> Blank(MergeAt(cells, to, x), |dict|)
  {
  }

  /** The published limits: at most 10,000 channels, none too long. */
  ghost predicate WithinLimits(universe: set<Key>) {
    |universe| <= CONTEST_CHANNELS && forall key :: key in universe ==> |key| <= MAX_CHANNEL_BYTES
  }

  ghost predicate Drawn(dict: seq<Key>, universe: set<Key>) {
    forall id :: 0 <= id < |dict| ==> dict[id] in universe
  }

  /** Within the limits there is room for every channel of the input. */
  lemma LimitsLeaveRoom(dict: seq<Key>, universe: set<Key>, key: Key)
    requires Distinct(dict) && Drawn(dict, universe) && WithinLimits(universe) && key in universe
    ensures RoomForKey(dict, key)
  {
    DistinctSize(dict, universe);
    if |dict| == CONTEST_CHANNELS {
      Publication.CompleteDictionary(dict, universe, key);
    }
    KeyBytesBound(dict, MAX_CHANNEL_BYTES);
  }

  /** The accumulators of one channel merged into those of channel `to`. */
  method MergeHeld(dst: Aggregates, to: nat, src: Aggregates, srcId: nat, ghost dict: seq<Key>, ghost t: Table,
                   ghost other: Table)
    requires Held(dst, dict, t) && Apart(dst, src) && to < |dict|
    requires Carries(src, other) && srcId < |other.dict|
    modifies dst.aggs, dst.wide
    ensures Apart(dst, src) && src.Cells() == old(src.Cells())
    ensures Held(dst, dict, Table(dict, MergeAt(t.cells, to, Tables.Months(other, srcId))))
  {
    ghost var cells := dst.Cells();
    MergeMonths(dst, to, src, srcId);
    CarriedMonths(src, other, srcId);
    UsedMerge(dict, cells, to, Tables.Months(other, srcId));
  }

  /** The source's accumulators are those of a table. */
  ghost predicate Carries(src: Aggregates, other: Table)
    reads src, src.aggs, src.wide
  {
    CarriedTable(src, other.dict) == Some(other)
  }

  ghost function CarriedTable(src: Aggregates, dict: seq<Key>): (t: Option<Table>)
    reads src, src.aggs, src.wide
  {
    if src.Ok() && MONTHS * |dict| <= src.aggs.Length then Some(Used(dict, src.Cells())) else None
  }

  lemma CarriedMonths(src: Aggregates, other: Table, id: nat)
    requires Carries(src, other) && id < |other.dict|
    ensures Slot(id + 1, 0) <= |src.Cells()|
    ensures src.Cells()[Slot(id, 0)..Slot(id + 1, 0)] == Tables.Months(other, id)
  {
  }

  /** The source's accumulators as the loop of map_merge finds them, apart from the target's. */
  ghost function Source(dst: Aggregates, src: Aggregates): (cells: Option<seq<Cell>>)
    reads dst, src, src.aggs, src.wide
    ensures cells.Some? <==> Apart(dst, src)
    ensures cells.Some? ==> cells.value == src.Cells()
  {
    if Apart(dst, src) then Some(src.Cells()) else None
  }

  /** The loop body of map_merge for a full entry. */
  method MergeEntry(map_: FlatMap, dst: Aggregates, key: Key, hash: Word32, src: Aggregates, srcId: nat, ghost t: Table,
                    ghost other: Table)
    requires Holding(map_, dst, t) && Source(dst, src).Some? && hash == HashKey(key, map_.crc) && RoomForKey(t.dict, key)
    requires Shaped(other) && Carries(src, other)
    requires srcId < |other.dict| && other.dict[srcId] == key && |t.cells| == MONTHS * |t.dict|
    modifies map_, map_.entries, map_.keys, map_.fast, map_.fast2, map_.fast3, dst.aggs, dst.wide
    ensures Source(dst, src) == old(Source(dst, src))
    ensures Holding(map_, dst, MergeChannel(t, other, srcId))
  {
    var id := FindBeside(map_, dst, key, hash, src, t, other);
    MergedAt(t, other, srcId, id);
    MergeHolding(map_, dst, id, src, srcId, Intern(t, key), other);
  }

  /** MergeHeld, with the target's dictionary left as it is. */
  method MergeHolding(map_: FlatMap, dst: Aggregates, to: nat, src: Aggregates, srcId: nat, ghost t: Table,
                      ghost other: Table)
    requires Holding(map_, dst, t) && Source(dst, src).Some? && to < |t.dict|
    requires Carries(src, other) && srcId < |other.dict|
    modifies dst.aggs, dst.wide
    ensures Source(dst, src) == old(Source(dst, src))
    ensures Holding(map_, dst, Table(t.dict, MergeAt(t.cells, to, Tables.Months(other, srcId))))
  {
    MergeHeld(dst, to, src, srcId, map_.dict, t, other);
  }

  /** The target's channel, with the source left as it is. */
  method FindBeside(map_: FlatMap, dst: Aggregates, key: Key, hash: Word32, src: Aggregates, ghost t: Table,
                    ghost other: Table)
    returns (id: nat)
    requires Holding(map_, dst, t) && Source(dst, src).Some? && hash == HashKey(key, map_.crc) && RoomForKey(t.dict, key)
    requires Carries(src, other)
    modifies map_, map_.entries, map_.keys, map_.fast, map_.fast2, map_.fast3, dst.aggs
    ensures Source(dst, src) == old(Source(dst, src)) && Carries(src, other)
    ensures Holding(map_, dst, Intern(t, key))
    ensures id < |Intern(t, key).dict| && Intern(t, key).dict[id] == key
  {
    id := FindChannel(map_, dst, key, hash, t);
  }

  /** The merge at the target's own ID is the merge of the channel. */
  lemma MergedAt(t: Table, other: Table, srcId: nat, id: nat)
    requires Shaped(other) && srcId < |other.dict| && |t.cells| == MONTHS * |t.dict|
    requires var u := Intern(t, other.dict[srcId]); id < |u.dict| && Distinct(u.dict) && u.dict[id] == other.dict[srcId]
    ensures var u := Intern(t, other.dict[srcId]);
            MergeChannel(t, other, srcId) == Table(u.dict, MergeAt(u.cells, id, Tables.Months(other, srcId)))
  {
    IndexOfAt(Intern(t, other.dict[srcId]).dict, id);
  }

  // ---- The loop of map_merge ---------------------------------------------------------

  ghost predicate IdsBelow(entries: seq<Option<Entry>>, n: nat) {
    forall i :: 0 <= i < |entries| && entries[i].Some? ==> entries[i].value.id < n
  }

  lemma SlotOrderBelow(entries: seq<Option<Entry>>, n: nat)
    requires IdsBelow(entries, n)
    ensures forall k :: 0 <= k < |SlotOrder(entries)| ==> SlotOrder(entries)[k] < n
  {
  }

  /** The target after the first i entries. */
  ghost function MergedTo(t: Table, other: Table, entries: seq<Option<Entry>>, i: nat): (r: Table)
    requires Shaped(other) && |t.cells| == MONTHS * |t.dict| && IdsBelow(entries, |other.dict|) && i <= |entries|
    ensures |r.cells| == MONTHS * |r.dict|
  {
    SlotOrderBelow(entries[..i], |other.dict|);
    MergeByKey(t, other, SlotOrder(entries[..i]))
  }

  lemma MergedNext(t: Table, other: Table, entries: seq<Option<Entry>>, i: nat)
    requires Shaped(other) && |t.cells| == MONTHS * |t.dict| && IdsBelow(entries, |other.dict|) && i < |entries|
    ensures entries[i].None? ==> MergedTo(t, other, entries, i + 1) == MergedTo(t, other, entries, i)
    ensures entries[i].Some? ==>
              MergedTo(t, other, entries, i + 1) == MergeChannel(MergedTo(t, other, entries, i), other, entries[i].value.id)
  {
    SlotOrderBelow(entries[..i], |other.dict|);
    SlotOrderBelow(entries[..i + 1], |other.dict|);
    assert entries[..i + 1][..i] == entries[..i];
    var front, order := SlotOrder(entries[..i]), SlotOrder(entries[..i + 1]);
    if entries[i].Some? {
      assert order == front + [entries[i].value.id];
      assert order[..|order| - 1] == front;
    } else {
      assert order == front;
    }
  }

  lemma HoldingLeavesRoom(map_: FlatMap, dst: Aggregates, t: Table, universe: set<Key>, key: Key)
    requires Holding(map_, dst, t) && Drawn(t.dict, universe) && WithinLimits(universe) && key in universe
    ensures RoomForKey(t.dict, key)
  {
    assert map_.Entered();
    LimitsLeaveRoom(t.dict, universe, key);
  }

  lemma DrawnChannel(t: Table, other: Table, id: nat, universe: set<Key>)
    requires Shaped(other) && id < |other.dict| && |t.cells| == MONTHS * |t.dict|
    requires Drawn(t.dict, universe) && Drawn(other.dict, universe)
    ensures Drawn(MergeChannel(t, other, id).dict, universe)
  {
  }

  /** What a full entry says of its channel. */
  predicate Describes(entry: Option<Entry>, arena: seq<Byte>, dict: seq<Key>, crc: Crc) {
    match entry
    case None => true
    case Some(e) =>
      && e.id < |dict| && e.hash == HashKey(dict[e.id], crc)
      && e.offset + e.len <= |arena| && arena[e.offset..e.offset + e.len] == dict[e.id]
  }

  lemma DescribedAt(entries: seq<Option<Entry>>, arena: seq<Byte>, used: nat, dict: seq<Key>, crc: Crc, i: nat)
    requires Described(entries, arena, used, dict, crc) && i < |entries|
    ensures Describes(entries[i], arena, dict, crc)
  {
  }

  /** The target after i entries, all its channels within the limits. */
  ghost predicate Progress(t: Table, other: Table, entries: seq<Option<Entry>>, i: nat, u: Table, universe: set<Key>)
    requires Shaped(other) && |t.cells| == MONTHS * |t.dict| && IdsBelow(entries, |other.dict|)
  {
    i <= |entries| && u == MergedTo(t, other, entries, i) && Drawn(u.dict, universe)
  }

  lemma ProgressFull(t: Table, other: Table, entries: seq<Option<Entry>>, i: nat, u: Table, universe: set<Key>)
    requires Shaped(other) && |t.cells| == MONTHS * |t.dict| && IdsBelow(entries, |other.dict|)
    requires Progress(t, other, entries, i, u, universe) && i < |entries| && Drawn(other.dict, universe)
    ensures entries[i].None? ==> Progress(t, other, entries, i + 1, u, universe)
    ensures entries[i].Some? ==> Progress(t, other, entries, i + 1, MergeChannel(u, other, entries[i].value.id), universe)
  {
    MergedNext(t, other, entries, i);
    if entries[i].Some? {
      DrawnChannel(u, other, entries[i].value.id, universe);
    }
  }

  /** Within the limits there is room for the channel of a full entry. */
  lemma EntryHasRoom(map_: FlatMap, dst: Aggregates, u: Table, other: Table, e: Entry, arena: seq<Byte>,
                     universe: set<Key>)
    requires Holding(map_, dst, u) && Describes(Some(e), arena, other.dict, map_.crc)
    requires Drawn(u.dict, universe) && Drawn(other.dict, universe) && WithinLimits(universe)
    ensures e.id < |other.dict| && arena[e.offset..e.offset + e.len] == other.dict[e.id]
    ensures e.hash == HashKey(other.dict[e.id], map_.crc) && RoomForKey(u.dict, other.dict[e.id])
  {
    HoldingLeavesRoom(map_, dst, u, universe, other.dict[e.id]);
  }

  /** One slot of the source's hash table. */
  method MergeNth(map_: FlatMap, dst: Aggregates, entry: Option<Entry>, arena: seq<Byte>, src: Aggregates,
                  ghost u: Table, ghost other: Table, ghost universe: set<Key>)
    returns (ghost u': Table)
    requires Holding(map_, dst, u) && Source(dst, src).Some? && Shaped(other) && Carries(src, other)
    requires Describes(entry, arena, other.dict, map_.crc)
    requires |u.cells| == MONTHS * |u.dict| && Drawn(u.dict, universe) && Drawn(other.dict, universe) && WithinLimits(universe)
    modifies map_, map_.entries, map_.keys, map_.fast, map_.fast2, map_.fast3, dst.aggs, dst.wide
    ensures Source(dst, src) == old(Source(dst, src))
    ensures u' == if entry.None? then u else MergeChannel(u, other, entry.value.id)
    ensures Holding(map_, dst, u')
  {
    if entry.None? {
      return u;
    }
    var e := entry.value;
    EntryHasRoom(map_, dst, u, other, e, arena, universe);
    MergeEntry(map_, dst, arena[e.offset..e.offset + e.len], e.hash, src, e.id, u, other);
    u' := MergeChannel(u, other, e.id);
  }

  /** The loop of map_merge over the slots of the source's hash table. */
  method MergeSlots(map_: FlatMap, dst: Aggregates, entries: seq<Option<Entry>>, arena: seq<Byte>, src: Aggregates,
                    ghost used: nat, ghost t: Table, ghost other: Table, ghost universe: set<Key>)
    requires Holding(map_, dst, t) && Source(dst, src).Some? && Shaped(other) && Carries(src, other)
    requires Described(entries, arena, used, other.dict, map_.crc) && IdsBelow(entries, |other.dict|)
    requires |t.cells| == MONTHS * |t.dict| && Drawn(t.dict, universe) && Drawn(other.dict, universe) && WithinLimits(universe)
    modifies map_, map_.entries, map_.keys, map_.fast, map_.fast2, map_.fast3, dst.aggs, dst.wide
    ensures src.Cells() == old(src.Cells())
    ensures Holding(map_, dst, MergedTo(t, other, entries, |entries|))
    ensures Drawn(MergedTo(t, other, entries, |entries|).dict, universe)
  {
    ghost var cells, u := src.Cells(), t;
    for i := 0 to |entries|
      invariant Source(dst, src) == Some(cells)
      invariant Progress(t, other, entries, i, u, universe)
      invariant Holding(map_, dst, u)
    {
      ProgressFull(t, other, entries, i, u, universe);
      DescribedAt(entries, arena, used, other.dict, map_.crc, i);
      u := MergeNth(map_, dst, entries[i], arena, src, u, other, universe);
    }
  }

  lemma EnteredIdsBelow(entries: seq<Option<Entry>>, arena: seq<Byte>, used: nat, dict: seq<Key>, crc: Crc)
    requires Described(entries, arena, used, dict, crc)
    ensures IdsBelow(entries, |dict|)
  {
  }

  /** map_merge on the source's slots and key arena. */
  method MergeArena(map_: FlatMap, dst: Aggregates, entries: seq<Option<Entry>>, arena: seq<Byte>, src: Aggregates,
                    ghost used: nat, ghost t: Table, ghost other: Table, ghost universe: set<Key>)
    requires Described(entries, arena, used, other.dict, map_.crc) && IdsBelow(entries, |other.dict|)
    requires Holding(map_, dst, t) && Shaped(other) && Carries(src, other) && |t.cells| == MONTHS * |t.dict|
    requires dst != src && dst.aggs != src.aggs && (src.wide != null ==> dst.wide != src.wide)
    requires Drawn(t.dict, universe) && Drawn(other.dict, universe) && WithinLimits(universe)
    modifies map_, map_.entries, map_.keys, map_.fast, map_.fast2, map_.fast3, dst, dst.aggs, dst.wide
    ensures src.Cells() == old(src.Cells())
    ensures Holding(map_, dst, MergedTo(t, other, entries, |entries|))
    ensures Drawn(MergedTo(t, other, entries, |entries|).dict, universe)
    ensures dst.wide == old(dst.wide) || fresh(dst.wide)
  {
    WidenHeld(map_, dst, src, t, other);
    MergeSlots(map_, dst, entries, arena, src, used, t, other, universe);
  }

  /** MakeWide, with both maps left as they are. */
  method WidenHeld(map_: FlatMap, dst: Aggregates, src: Aggregates, ghost t: Table, ghost other: Table)
    requires Holding(map_, dst, t) && Carries(src, other)
    requires dst != src && dst.aggs != src.aggs && (src.wide != null ==> dst.wide != src.wide)
    modifies dst`wide
    ensures Holding(map_, dst, t) && Carries(src, other) && Source(dst, src) == Some(old(src.Cells()))
    ensures dst.wide == old(dst.wide) || fresh(dst.wide)
  {
    MakeWide(dst, src);
  }

  /** map_merge: afterwards the target holds the source's groups merged into its own, in the
      order of the source's hash table.  The source is not written, so its slots and its key
      arena are read as values. */
  method MergeMaps(map_: FlatMap, dst: Aggregates, srcMap: FlatMap, src: Aggregates, ghost t: Table, ghost other: Table,
                   ghost universe: set<Key>)
    requires srcMap.Entered() && other.dict == srcMap.dict && Carries(src, other) && Shaped(other)
    requires Holding(map_, dst, t) && map_.crc == srcMap.crc && |t.cells| == MONTHS * |t.dict|
    requires map_ != srcMap && map_.entries != srcMap.entries && map_.keys != srcMap.keys
    requires dst != src && dst.aggs != src.aggs && (src.wide != null ==> dst.wide != src.wide)
    requires Drawn(t.dict, universe) && Drawn(other.dict, universe) && WithinLimits(universe)
    modifies map_, map_.entries, map_.keys, map_.fast, map_.fast2, map_.fast3, dst, dst.aggs, dst.wide
    ensures IdsBelow(old(srcMap.entries[..]), |other.dict|)
    ensures src.Cells() == old(src.Cells())
    ensures Holding(map_, dst, MergedTo(t, other, old(srcMap.entries[..]), MAP_CAPACITY))
    ensures Drawn(MergedTo(t, other, old(srcMap.entries[..]), MAP_CAPACITY).dict, universe)
    ensures dst.wide == old(dst.wide) || fresh(dst.wide)
  {
    var entries, arena := srcMap.entries[..], srcMap.keys[..];
    ghost var used := srcMap.keyUsed;
    EnteredIdsBelow(entries, arena, used, other.dict, map_.crc);
    MergeArena(map_, dst, entries, arena, src, used, t, other, universe);
  }

  /** Group by group, map_merge adds the source to the target. */
  lemma MergedGroups(t: Table, other: Table, entries: seq<Option<Entry>>, loc: map<nat, nat>, crc: Crc, channel: Key,
                     month: nat)
    requires Shaped(t) && Shaped(other) && Mergeable(t, other)
    requires Locates(entries, other.dict, loc, crc) && IdsBelow(entries, |other.dict|)
    ensures Shaped(MergedTo(t, other, entries, |entries|))
    ensures Lookup(MergedTo(t, other, entries, |entries|), channel, month) ==
            Merge(Lookup(t, channel, month), Lookup(other, channel, month))
  {
    LocatesPlaces(entries, other.dict, loc, crc);
    SlotOrderVisits(entries, loc, |other.dict|);
    assert entries[..|entries|] == entries;
    MergeByKeyGroups(t, other, SlotOrder(entries), channel, month);
  }

  // ---- canonicalize_worker_map -------------------------------------------------------

  /** The accumulators of a shared ID once the first i slots of the worker's own hash table
      have been moved. */
  ghost function MovedCell(t: Table, shared: seq<Key>, loc: map<nat, nat>, i: nat, k: nat): Cell
    requires Shaped(t) && k < MONTHS * |shared|
  {
    var channel := shared[k / MONTHS];
    if channel in t.dict && IndexOf(t.dict, channel) in loc && loc[IndexOf(t.dict, channel)] < i then RekeyedCell(t, shared, k)
    else EMPTY_CELL
  }

  ghost predicate MovedTo(cells: seq<Cell>, t: Table, shared: seq<Key>, loc: map<nat, nat>, i: nat)
    requires Shaped(t)
  {
    |cells| == MONTHS * |shared| && forall k :: 0 <= k < |cells| ==> cells[k] == MovedCell(t, shared, loc, i, k)
  }

  /** The twelve accumulators of one channel, copied to its shared ID. */
  function CopiedTo(cells: seq<Cell>, to: nat, x: seq<Cell>): seq<Cell>
    requires |x| == MONTHS
  {
    seq(|cells|, k requires 0 <= k < |cells| => if k / MONTHS == to then x[k % MONTHS] else cells[k])
  }

  lemma MovedNext(cells: seq<Cell>, t: Table, shared: seq<Key>, loc: map<nat, nat>, i: nat, id: nat, to: nat)
    requires Shaped(t) && MovedTo(cells, t, shared, loc, i) && Distinct(shared)
    requires id < |t.dict| && id in loc && loc[id] == i && (forall o :: o in loc && loc[o] == i ==> o == id)
    requires to < |shared| && shared[to] == t.dict[id]
    ensures MovedTo(CopiedTo(cells, to, Tables.Months(t, id)), t, shared, loc, i + 1)
  {
  }

  lemma MovedPast(cells: seq<Cell>, t: Table, shared: seq<Key>, loc: map<nat, nat>, i: nat)
    requires Shaped(t) && MovedTo(cells, t, shared, loc, i) && (forall o :: o in loc ==> loc[o] != i)
    ensures MovedTo(cells, t, shared, loc, i + 1)
  {
  }

  lemma MovedAll(cells: seq<Cell>, t: Table, shared: seq<Key>, loc: map<nat, nat>, n: nat)
    requires Shaped(t) && MovedTo(cells, t, shared, loc, n)
    requires forall id :: 0 <= id < |t.dict| ==> id in loc && loc[id] < n
    ensures Table(shared, cells) == Rekey(t, shared)
  {
  }

  /** One struct assignment, with the side entries when there are any. */
  method CopyMonths(dst: Aggregates, to: nat, src: Aggregates, id: nat)
    requires Apart(dst, src) && Slot(to + 1, 0) <= dst.aggs.Length && Slot(id + 1, 0) <= src.aggs.Length
    requires src.wide == null ==> dst.wide == null
    modifies dst.aggs, dst.wide
    ensures Apart(dst, src) && src.Cells() == old(src.Cells())
    ensures dst.Cells() == CopiedTo(old(dst.Cells()), to, src.Cells()[Slot(id, 0)..Slot(id + 1, 0)])
  {
    ghost var before, other := dst.Cells(), src.Cells();
    for month := 0 to MONTHS
      invariant Apart(dst, src) && src.Cells() == other && |dst.Cells()| == |before|
      invariant forall k :: 0 <= k < |before| ==>
                  dst.Cells()[k] == if Slot(to, 0) <= k < Slot(to, month) then other[Slot(id, 0) + k - Slot(to, 0)] else before[k]
    {
      var w := WideAt(src, Slot(id, month));
      Store(dst, Slot(to, month), src.aggs[Slot(id, month)], w);
    }
    CopiedMonths(before, dst.Cells(), to, other, id);
  }

  lemma CopiedMonths(before: seq<Cell>, after: seq<Cell>, to: nat, other: seq<Cell>, id: nat)
    requires |after| == |before| && Slot(to + 1, 0) <= |before| && Slot(id + 1, 0) <= |other|
    requires forall k :: 0 <= k < |before| ==>
               after[k] == if Slot(to, 0) <= k < Slot(to, MONTHS) then other[Slot(id, 0) + k - Slot(to, 0)] else before[k]
    ensures after == CopiedTo(before, to, other[Slot(id, 0)..Slot(id + 1, 0)])
  {
  }

  method MoveTo(canonical: Aggregates, to: nat, src: Aggregates, id: nat, ghost shared: seq<Key>, ghost t: Table,
                ghost loc: map<nat, nat>, ghost i: nat)
    requires Apart(canonical, src) && (src.wide == null ==> canonical.wide == null) && Shaped(t) && Carries(src, t)
    requires id < |t.dict| && id in loc && loc[id] == i && (forall o :: o in loc && loc[o] == i ==> o == id)
    requires Distinct(shared) && to < |shared| && shared[to] == t.dict[id]
    requires MovedTo(canonical.Cells(), t, shared, loc, i)
    modifies canonical.aggs, canonical.wide
    ensures Apart(canonical, src) && src.Cells() == old(src.Cells())
    ensures MovedTo(canonical.Cells(), t, shared, loc, i + 1)
  {
    CarriedMonths(src, t, id);
    MovedNext(canonical.Cells(), t, shared, loc, i, id, to);
    CopyMonths(canonical, to, src, id);
  }

  /** One full slot of the worker's own hash table: its channel's ID in the shared dictionary is
      looked up, and the accumulators move there. */
  method MoveChannel(canonical: Aggregates, e: Entry, key: Key, src: Aggregates, dictionary: FlatMap, ghost t: Table,
                     ghost loc: map<nat, nat>, ghost i: nat)
    requires Apart(canonical, src) && (src.wide == null ==> canonical.wide == null) && Shaped(t) && Carries(src, t)
    requires dictionary.Entered() && key in dictionary.dict && e.hash == HashKey(key, dictionary.crc)
    requires e.id < |t.dict| && t.dict[e.id] == key && e.id in loc && loc[e.id] == i
    requires forall o :: o in loc && loc[o] == i ==> o == e.id
    requires MovedTo(canonical.Cells(), t, dictionary.dict, loc, i)
    modifies canonical.aggs, canonical.wide
    ensures Apart(canonical, src) && src.Cells() == old(src.Cells())
    ensures MovedTo(canonical.Cells(), t, dictionary.dict, loc, i + 1)
  {
    var found := dictionary.FindReadonly(key, e.hash);
    MoveTo(canonical, found.value, src, e.id, dictionary.dict, t, loc, i);
  }

  /** One slot of the worker's own hash table. */
  method MoveSlot(canonical: Aggregates, entry: Option<Entry>, arena: seq<Byte>, src: Aggregates, dictionary: FlatMap,
                  ghost t: Table, ghost loc: map<nat, nat>, ghost i: nat)
    requires Apart(canonical, src) && (src.wide == null ==> canonical.wide == null) && Shaped(t) && Carries(src, t)
    requires dictionary.Entered() && (forall id :: 0 <= id < |t.dict| ==> t.dict[id] in dictionary.dict)
    requires Describes(entry, arena, t.dict, dictionary.crc) && SitsAt(entry, loc, i)
    requires MovedTo(canonical.Cells(), t, dictionary.dict, loc, i)
    modifies canonical.aggs, canonical.wide
    ensures Apart(canonical, src) && src.Cells() == old(src.Cells())
    ensures MovedTo(canonical.Cells(), t, dictionary.dict, loc, i + 1)
  {
    match entry {
      case None =>
        MovedPast(canonical.Cells(), t, dictionary.dict, loc, i);
      case Some(e) =>
        MoveChannel(canonical, e, arena[e.offset..e.offset + e.len], src, dictionary, t, loc, i);
    }
  }

  /** Slot i of the hash table holds the entry, the only ID located there. */
  ghost predicate SitsAt(entry: Option<Entry>, loc: map<nat, nat>, i: nat) {
    match entry
    case None => forall o :: o in loc ==> loc[o] != i
    case Some(e) => e.id in loc && loc[e.id] == i && forall o :: o in loc && loc[o] == i ==> o == e.id
  }

  lemma LocatesAt(entries: seq<Option<Entry>>, dict: seq<Key>, loc: map<nat, nat>, crc: Crc, i: nat)
    requires Locates(entries, dict, loc, crc) && i < |entries|
    ensures SitsAt(entries[i], loc, i)
  {
    SeenAt(entries, dict, loc, crc, i);
  }

  /** The worker's accumulators under the IDs of the shared dictionary. */
  method MoveSlots(canonical: Aggregates, entries: seq<Option<Entry>>, arena: seq<Byte>, src: Aggregates,
                   dictionary: FlatMap, ghost used: nat, ghost t: Table, ghost loc: map<nat, nat>)
    requires Apart(canonical, src) && (src.wide == null ==> canonical.wide == null) && Shaped(t) && Carries(src, t)
    requires dictionary.Entered() && (forall id :: 0 <= id < |t.dict| ==> t.dict[id] in dictionary.dict)
    requires Described(entries, arena, used, t.dict, dictionary.crc) && Locates(entries, t.dict, loc, dictionary.crc)
    requires canonical.Cells() == seq(MONTHS * |dictionary.dict|, k => EMPTY_CELL)
    modifies canonical.aggs, canonical.wide
    ensures canonical.Ok() && src.Cells() == old(src.Cells())
    ensures Table(dictionary.dict, canonical.Cells()) == Rekey(t, dictionary.dict)
  {
    ghost var cells := src.Cells();
    for i := 0 to |entries|
      invariant Apart(canonical, src) && src.Cells() == cells
      invariant MovedTo(canonical.Cells(), t, dictionary.dict, loc, i)
    {
      DescribedAt(entries, arena, used, t.dict, dictionary.crc, i);
      LocatesAt(entries, t.dict, loc, dictionary.crc, i);
      MoveSlot(canonical, entries[i], arena, src, dictionary, t, loc, i);
    }
    LocatesPlaces(entries, t.dict, loc, dictionary.crc);
    MovedAll(canonical.Cells(), t, dictionary.dict, loc, |entries|);
  }

  /** map_init_aggs, with a side table when the worker has one. */
  method EmptyLike(worker: Aggregates, channels: nat) returns (canonical: Aggregates)
    requires worker.Ok() && channels <= MAP_CAPACITY
    ensures fresh(canonical) && fresh(canonical.aggs) && (canonical.wide != null ==> fresh(canonical.wide))
    ensures Apart(canonical, worker) && (worker.wide == null ==> canonical.wide == null)
    ensures canonical.Cells() == seq(MONTHS * channels, k => EMPTY_CELL)
  {
    canonical := new Aggregates(channels);
    MakeWide(canonical, worker);
  }

  /** canonicalize_worker_map for a worker that adopts another worker's dictionary.  The
      published dictionary and the worker's own map are not written. */
  method Canonicalize(map_: FlatMap, worker: Aggregates, dictionary: FlatMap, ghost t: Table)
    returns (canonical: Aggregates)
    requires map_.Entered() && t.dict == map_.dict && Carries(worker, t) && Shaped(t)
    requires dictionary.Entered() && dictionary.crc == map_.crc
    requires forall id :: 0 <= id < |t.dict| ==> t.dict[id] in dictionary.dict
    ensures canonical.Ok() && fresh(canonical) && fresh(canonical.aggs)
    ensures canonical.wide != null ==> fresh(canonical.wide)
    ensures Table(dictionary.dict, canonical.Cells()) == Rekey(t, dictionary.dict)
  {
    canonical := EmptyLike(worker, dictionary.size);
    MoveSlots(canonical, map_.entries[..], map_.keys[..], worker, dictionary, map_.keyUsed, t, map_.loc);
  }

  /** canonicalize_worker_map for the publisher: only the channels in use keep room. */
  method KeepOwn(map_: FlatMap, worker: Aggregates, ghost t: Table) returns (hot: Aggregates)
    requires map_.Entered() && t.dict == map_.dict && Carries(worker, t)
    ensures hot.Ok() && fresh(hot) && fresh(hot.aggs) && hot.wide == worker.wide
    ensures Table(map_.dict, hot.Cells()) == t
  {
    hot := new Aggregates(map_.size);
    forall i | 0 <= i < MONTHS * map_.size {
      hot.aggs[i] := worker.aggs[i];
    }
    hot.wide := worker.wide;
    assert hot.Cells() == worker.Cells()[..MONTHS * map_.size];
  }
}
