/** A worker's map as a value: the channels in order of discovery (the position is the
    channel's ID) and twelve accumulators per channel.  The classes that index such a map
    by hashing and the publication protocol are both stated in these terms. */
module Tables {
  import opened ReferenceFold
  import opened Collections
  import opened Cells

  datatype Table = Table(dict: seq<Key>, cells: seq<Cell>)

  /** The published limit on channels. */
  const CONTEST_CHANNELS := 10000

  ghost predicate Shaped(t: Table) {
    && Distinct(t.dict)
    && |t.cells| == MONTHS * |t.dict|
    && forall i :: 0 <= i < |t.cells| ==> Valid(t.cells[i])
  }

  /** The accumulator of channel `id` in `month`. */
  function Slot(id: nat, month: nat): nat { MONTHS * id + month }

  ghost function IndexOf(dict: seq<Key>, channel: Key): (id: nat)
    requires channel in dict
    ensures id < |dict| && dict[id] == channel
  {
    var id :| 0 <= id < |dict| && dict[id] == channel;
    id
  }

  lemma IndexOfAt(dict: seq<Key>, id: nat)
    requires Distinct(dict) && id < |dict|
    ensures IndexOf(dict, dict[id]) == id
  {
  }

  /** What the table holds for one group. */
  ghost function Lookup(t: Table, channel: Key, month: nat): Stat
    requires Shaped(t)
  {
    if channel in t.dict && month < MONTHS then Value(t.cells[Slot(IndexOf(t.dict, channel), month)]) else None
  }

  // ---- Operations --------------------------------------------------------------------

  const NO_CHANNELS := Table([], [])

  function FreshMonths(): seq<Cell> { seq(MONTHS, i => EMPTY_CELL) }

  /** map_find: an unknown channel receives the next ID and twelve empty accumulators. */
  function Intern(t: Table, channel: Key): Table {
    if channel in t.dict then t else Table(t.dict + [channel], t.cells + FreshMonths())
  }

  /** One row, or one queued increment, lands in its accumulator. */
  function AddAt(t: Table, id: nat, month: nat, length: Word32, stamps: Word32): Table
    requires Slot(id, month) < |t.cells|
  {
    t.(cells := t.cells[Slot(id, month) := CellAdd(t.cells[Slot(id, month)], length, stamps)])
  }

  /** canonicalize_worker_map: the same groups under the IDs of a shared dictionary. */
  ghost function Rekey(t: Table, shared: seq<Key>): Table
    requires Shaped(t)
  {
    Table(shared, seq(MONTHS * |shared|, i requires 0 <= i < MONTHS * |shared| => RekeyedCell(t, shared, i)))
  }

  ghost function RekeyedCell(t: Table, shared: seq<Key>, i: nat): Cell
    requires Shaped(t) && i < MONTHS * |shared|
  {
    var channel := shared[i / MONTHS];
    if channel in t.dict then t.cells[Slot(IndexOf(t.dict, channel), i % MONTHS)] else EMPTY_CELL
  }

  function MergeCells(y: seq<Cell>, x: seq<Cell>): seq<Cell>
    requires |y| == |x|
  {
    seq(|y|, i requires 0 <= i < |y| => MergeCell(y[i], x[i]))
  }

  /** map_merge_ids: accumulators of equal position belong to the same group. */
  function MergeIds(dst: Table, src: Table): Table
    requires |dst.cells| == |src.cells|
  {
    Table(dst.dict, MergeCells(dst.cells, src.cells))
  }

  // ---- What the operations do to the groups ------------------------------------------

  lemma InternShaped(t: Table, channel: Key)
    requires Shaped(t)
    ensures Shaped(Intern(t, channel))
    ensures channel in Intern(t, channel).dict
    ensures t.dict <= Intern(t, channel).dict && t.cells <= Intern(t, channel).cells
    ensures forall i :: |t.cells| <= i < |Intern(t, channel).cells| ==> Intern(t, channel).cells[i] == EMPTY_CELL
    ensures forall id :: |t.dict| <= id < |Intern(t, channel).dict| ==> Intern(t, channel).dict[id] == channel
  {
  }

  lemma AddAtShaped(t: Table, id: nat, month: nat, length: Word32, stamps: Word32)
    requires Shaped(t) && id < |t.dict| && month < MONTHS && length >= 1
    requires Fits(Merge(Value(t.cells[Slot(id, month)]), Single(length, stamps)))
    ensures Shaped(AddAt(t, id, month, length, stamps))
    ensures Value(AddAt(t, id, month, length, stamps).cells[Slot(id, month)]) ==
            Merge(Value(t.cells[Slot(id, month)]), Single(length, stamps))
  {
    CellAddRefines(t.cells[Slot(id, month)], length, stamps);
  }

  /** Re-keying moves every group and invents none. */
  lemma RekeyKeepsGroups(t: Table, shared: seq<Key>, channel: Key, month: nat)
    requires Shaped(t) && Distinct(shared)
    requires forall id :: 0 <= id < |t.dict| ==> t.dict[id] in shared
    ensures Shaped(Rekey(t, shared))
    ensures Lookup(Rekey(t, shared), channel, month) == Lookup(t, channel, month)
  {
    var r := Rekey(t, shared);
    assert forall i :: 0 <= i < |r.cells| ==> r.cells[i] == RekeyedCell(t, shared, i);
    if channel in shared && month < MONTHS {
      var id := IndexOf(shared, channel);
      assert Slot(id, month) / MONTHS == id && Slot(id, month) % MONTHS == month;
      assert r.cells[Slot(id, month)] == RekeyedCell(t, shared, Slot(id, month));
    }
  }

  /** Merging by position merges group by group. */
  lemma MergeIdsGroups(dst: Table, src: Table, channel: Key, month: nat)
    requires Shaped(dst) && Shaped(src) && dst.dict == src.dict
    requires forall i :: 0 <= i < |dst.cells| ==> Fits(Merge(Value(dst.cells[i]), Value(src.cells[i])))
    ensures Shaped(MergeIds(dst, src))
    ensures Lookup(MergeIds(dst, src), channel, month) == Merge(Lookup(dst, channel, month), Lookup(src, channel, month))
  {
    forall i | 0 <= i < |dst.cells|
      ensures Valid(MergeIds(dst, src).cells[i])
      ensures Value(MergeIds(dst, src).cells[i]) == Merge(Value(dst.cells[i]), Value(src.cells[i]))
    {
      MergeCellRefines(dst.cells[i], src.cells[i]);
    }
  }

  // ---- Merging tables whose IDs differ -----------------------------------------------

  /** The cells of channel `to` merged with the twelve cells `x`, all others unchanged. */
  function MergeAt(cells: seq<Cell>, to: nat, x: seq<Cell>): seq<Cell>
    requires |x| == MONTHS
  {
    seq(|cells|, i requires 0 <= i < |cells| =>
      if i / MONTHS == to then MergeCell(cells[i], x[i % MONTHS]) else cells[i])
  }

  /** The twelve accumulators of channel `id`. */
  function Months(t: Table, id: nat): (r: seq<Cell>)
    requires |t.cells| == MONTHS * |t.dict| && id < |t.dict|
    ensures |r| == MONTHS
  {
    t.cells[Slot(id, 0)..Slot(id + 1, 0)]
  }

  /** One channel of map_merge: find or insert it in dst, then merge its twelve months. */
  ghost function MergeChannel(dst: Table, src: Table, id: nat): (r: Table)
    requires Shaped(src) && id < |src.dict| && |dst.cells| == MONTHS * |dst.dict|
    ensures |r.cells| == MONTHS * |r.dict|
  {
    var wider := Intern(dst, src.dict[id]);
    Table(wider.dict, MergeAt(wider.cells, IndexOf(wider.dict, src.dict[id]), Months(src, id)))
  }

  /** map_merge visits the channels of src in the order of their slots in its hash table. */
  ghost function MergeByKey(dst: Table, src: Table, order: seq<nat>): (r: Table)
    requires Shaped(src) && |dst.cells| == MONTHS * |dst.dict|
    requires forall i :: 0 <= i < |order| ==> order[i] < |src.dict|
    ensures |r.cells| == MONTHS * |r.dict|
  {
    if |order| == 0 then dst
    else MergeChannel(MergeByKey(dst, src, order[..|order| - 1]), src, order[|order| - 1])
  }

  /** Exactly the IDs below n, each once. */
  ghost predicate Visits(order: seq<nat>, n: nat) {
    && Distinct(order)
    && (forall i :: 0 <= i < |order| ==> order[i] < n)
    && (forall id :: 0 <= id < n ==> id in order)
  }

  /** What src contributes once the channels of `order` have been merged. */
  ghost function Contribution(src: Table, order: seq<nat>, channel: Key, month: nat): Stat
    requires Shaped(src)
  {
    if channel in src.dict && IndexOf(src.dict, channel) in order then Lookup(src, channel, month) else None
  }

  /** The merged cells of the channel. */
  lemma MergedCell(dst: Table, src: Table, id: nat, m: nat)
    requires Shaped(dst) && Shaped(src) && id < |src.dict| && m < MONTHS
    requires Fits(Merge(Lookup(dst, src.dict[id], m), Lookup(src, src.dict[id], m)))
    ensures var wider := Intern(dst, src.dict[id]);
            var i := Slot(IndexOf(wider.dict, src.dict[id]), m);
            && Shaped(wider) && i < |wider.cells|
            && Valid(MergeCell(wider.cells[i], src.cells[Slot(id, m)]))
            && Value(MergeCell(wider.cells[i], src.cells[Slot(id, m)])) ==
               Merge(Lookup(dst, src.dict[id], m), Lookup(src, src.dict[id], m))
  {
    var k := src.dict[id];
    IndexOfAt(src.dict, id);
    WiderCell(dst, k, k, m);
    InternShaped(dst, k);
    var wider := Intern(dst, k);
    MergeCellRefines(wider.cells[Slot(IndexOf(wider.dict, k), m)], src.cells[Slot(id, m)]);
  }

  lemma MergeChannelGroups(dst: Table, src: Table, id: nat, channel: Key, month: nat)
    requires Shaped(dst) && Shaped(src) && id < |src.dict|
    requires forall m :: 0 <= m < MONTHS ==>
                           Fits(Merge(Lookup(dst, src.dict[id], m), Lookup(src, src.dict[id], m)))
    ensures Shaped(MergeChannel(dst, src, id))
    ensures Lookup(MergeChannel(dst, src, id), channel, month) ==
            if channel == src.dict[id] then Merge(Lookup(dst, channel, month), Lookup(src, channel, month))
            else Lookup(dst, channel, month)
  {
    var k := src.dict[id];
    MergedChannelShaped(dst, src, id);
    InternShaped(dst, k);
    var r := MergeChannel(dst, src, id);
    if channel in r.dict && month < MONTHS {
      var at := IndexOf(r.dict, channel);
      assert Slot(at, month) / MONTHS == at && Slot(at, month) % MONTHS == month;
      if channel == k {
        MergedCell(dst, src, id, month);
      } else {
        WiderCell(dst, k, channel, month);
      }
    }
  }

  lemma MergedChannelShaped(dst: Table, src: Table, id: nat)
    requires Shaped(dst) && Shaped(src) && id < |src.dict|
    requires forall m :: 0 <= m < MONTHS ==>
                           Fits(Merge(Lookup(dst, src.dict[id], m), Lookup(src, src.dict[id], m)))
    ensures Shaped(MergeChannel(dst, src, id))
  {
    var k := src.dict[id];
    InternShaped(dst, k);
    var to := IndexOf(Intern(dst, k).dict, k);
    var r := MergeChannel(dst, src, id);
    forall i | 0 <= i < |r.cells| && i / MONTHS == to ensures Valid(r.cells[i]) {
      assert i == Slot(to, i % MONTHS);
      MergedCell(dst, src, id, i % MONTHS);
    }
  }

  /** Interning one channel leaves what every group holds. */
  lemma WiderCell(dst: Table, added: Key, channel: Key, month: nat)
    requires Shaped(dst)
    ensures Shaped(Intern(dst, added))
    ensures Lookup(Intern(dst, added), channel, month) == Lookup(dst, channel, month)
  {
    InternShaped(dst, added);
    var wider := Intern(dst, added);
    if channel in dst.dict && month < MONTHS {
      var id := IndexOf(dst.dict, channel);
      assert wider.dict[id] == channel;
      IndexOfAt(wider.dict, id);
      assert Slot(id, month) < |dst.cells|;
    } else if channel in wider.dict && month < MONTHS {
      assert Slot(IndexOf(wider.dict, channel), month) >= |dst.cells|;
    }
  }

  /** Every group of src can be added to dst's without leaving 32 bits. */
  ghost predicate Mergeable(dst: Table, src: Table)
    requires Shaped(dst) && Shaped(src)
  {
    forall channel: Key, month: nat :: Fits(Merge(Lookup(dst, channel, month), Lookup(src, channel, month)))
  }

  lemma {:induction false} MergeByKeyPrefix(dst: Table, src: Table, order: seq<nat>, channel: Key, month: nat)
    requires Shaped(dst) && Shaped(src) && Mergeable(dst, src) && Distinct(order)
    requires forall i :: 0 <= i < |order| ==> order[i] < |src.dict|
    ensures Shaped(MergeByKey(dst, src, order))
    ensures Lookup(MergeByKey(dst, src, order), channel, month) ==
            Merge(Lookup(dst, channel, month), Contribution(src, order, channel, month))
    decreases |order|
  {
    if |order| > 0 {
      var front, id := order[..|order| - 1], order[|order| - 1];
      var k := src.dict[id];
      IndexOfAt(src.dict, id);
      MergeByKeyPrefix(dst, src, front, channel, month);
      forall m | 0 <= m < MONTHS
        ensures Fits(Merge(Lookup(MergeByKey(dst, src, front), k, m), Lookup(src, k, m)))
      {
        MergeByKeyPrefix(dst, src, front, k, m);
        assert Contribution(src, front, k, m).None?;
        assert Fits(Merge(Lookup(dst, k, m), Lookup(src, k, m)));
      }
      MergeChannelGroups(MergeByKey(dst, src, front), src, id, channel, month);
      if channel in src.dict {
        assert src.dict[IndexOf(src.dict, channel)] == channel;
        assert IndexOf(src.dict, channel) in order <==>
               IndexOf(src.dict, channel) in front || IndexOf(src.dict, channel) == id;
      }
    }
  }

  /** Whatever order the hash table yields its channels in, map_merge merges group by group. */
  lemma MergeByKeyGroups(dst: Table, src: Table, order: seq<nat>, channel: Key, month: nat)
    requires Shaped(dst) && Shaped(src) && Mergeable(dst, src) && Visits(order, |src.dict|)
    ensures Shaped(MergeByKey(dst, src, order))
    ensures Lookup(MergeByKey(dst, src, order), channel, month) ==
            Merge(Lookup(dst, channel, month), Lookup(src, channel, month))
  {
    MergeByKeyPrefix(dst, src, order, channel, month);
  }
}
