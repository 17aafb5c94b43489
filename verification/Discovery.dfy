/** One row of the discovery loop in memory: a worker's own dictionary and accumulators, with
    one delayed write.  Each row is the ParseRow step of module Publication. */
module Discovery {
  import opened ReferenceFold
  import opened Cells
  import opened Tables
  import opened Queues
  import opened Csv
  import opened Keys
  import opened DirectIds
  import opened Dictionary
  import opened Accumulators
  import opened Publication
  import opened Steady

  /** The accumulators of channels that are not discovered yet are still zeroed. */
  ghost predicate Blank(cells: seq<Cell>, channels: nat) {
    forall i :: Slot(channels, 0) <= i < |cells| ==> cells[i] == Cell(ZEROED, NO_WIDE)
  }

  /** The worker's table: its channels, and the accumulators in use. */
  ghost function Used(dict: seq<Key>, cells: seq<Cell>): Table
    requires MONTHS * |dict| <= |cells|
  {
    Table(dict, cells[..MONTHS * |dict|])
  }

  /** The sentinel loop of map_insert. */
  method InitMonths(worker: Aggregates, id: nat)
    requires worker.Ok() && Slot(id + 1, 0) <= worker.aggs.Length
    requires Blank(worker.Cells(), id)
    modifies worker.aggs
    ensures worker.Ok() && Blank(worker.Cells(), id + 1)
    ensures worker.Cells()[..Slot(id + 1, 0)] == old(worker.Cells())[..Slot(id, 0)] + FreshMonths()
  {
    ghost var before := worker.Cells();
    for i := 0 to MONTHS
      invariant worker.Ok() && |worker.Cells()| == |before|
      invariant forall k :: 0 <= k < |before| ==>
                  worker.Cells()[k] == if Slot(id, 0) <= k < Slot(id, i) then EMPTY_CELL else before[k]
    {
      ghost var cells := worker.Cells();
      assert cells[Slot(id, i)] == before[Slot(id, i)] == Cell(ZEROED, NO_WIDE);
      worker.aggs[MONTHS * id + i] := worker.aggs[MONTHS * id + i].(minLen := NO_SAMPLE, invMaxLen := NO_SAMPLE);
      assert worker.Cells() == cells[Slot(id, i) := EMPTY_CELL];
    }
    FilledMonths(before, worker.Cells(), id);
  }

  lemma FilledMonths(before: seq<Cell>, after: seq<Cell>, id: nat)
    requires |after| == |before| && Slot(id + 1, 0) <= |before| && Blank(before, id)
    requires forall k :: 0 <= k < |before| ==>
               after[k] == if Slot(id, 0) <= k < Slot(id, MONTHS) then EMPTY_CELL else before[k]
    ensures Blank(after, id + 1) && after[..Slot(id + 1, 0)] == before[..Slot(id, 0)] + FreshMonths()
  {
  }

  /** An update inside the used part is an update of the table. */
  lemma UsedUpdate(dict: seq<Key>, cells: seq<Cell>, i: nat, c: Cell)
    requires MONTHS * |dict| <= |cells| && i < MONTHS * |dict|
    ensures Used(dict, cells[i := c]) == Used(dict, cells).(cells := Used(dict, cells).cells[i := c])
    ensures Blank(cells, |dict|) ==> Blank(cells[i := c], |dict|)
  {
  }

  lemma NewChannelInterns(dict: seq<Key>, cells: seq<Cell>, key: Key, after: seq<Cell>)
    requires key !in dict && Slot(|dict| + 1, 0) <= |cells| == |after|
    requires after[..Slot(|dict| + 1, 0)] == cells[..Slot(|dict|, 0)] + FreshMonths()
    ensures Used(dict + [key], after) == Intern(Used(dict, cells), key)
  {
  }

  /** The worker's memory: its dictionary, accumulators for every channel it may discover, and
      the table they stand for. */
  ghost predicate Holding(map_: FlatMap, worker: Aggregates, t: Table)
    reads map_, map_.entries, map_.keys, map_.fast, map_.fast2, map_.fast3, worker, worker.aggs, worker.wide
  {
    InMemory(map_, worker) == Some(t)
  }

  ghost function InMemory(map_: FlatMap, worker: Aggregates): (t: Option<Table>)
    reads map_, map_.entries, map_.keys, map_.fast, map_.fast2, map_.fast3, worker, worker.aggs, worker.wide
    ensures t.Some? ==> Held(worker, map_.dict, t.value) && t.value.dict == map_.dict
  {
    if map_.Valid() && map_.aggCap == MAP_CAPACITY && worker.Ok() && worker.aggs.Length == MONTHS * MAP_CAPACITY &&
       Blank(worker.Cells(), |map_.dict|)
    then Some(Used(map_.dict, worker.Cells()))
    else None
  }

  ghost predicate Held(worker: Aggregates, dict: seq<Key>, t: Table)
    reads worker, worker.aggs, worker.wide
  {
    HeldTable(worker, dict) == Some(t)
  }

  /** The table of these channels in accumulators for all that may be discovered. */
  ghost function HeldTable(worker: Aggregates, dict: seq<Key>): (t: Option<Table>)
    reads worker, worker.aggs, worker.wide
  {
    if worker.Ok() && worker.aggs.Length == MONTHS * MAP_CAPACITY && MONTHS * |dict| <= |worker.Cells()| &&
       Blank(worker.Cells(), |dict|)
    then Some(Used(dict, worker.Cells()))
    else None
  }

  /** What the published limits leave room for. */
  predicate RoomForKey(dict: seq<Key>, key: Key) {
    && (|dict| < CONTEST_CHANNELS || (|dict| == CONTEST_CHANNELS && key in dict))
    && KeyBytes(dict) + |key| <= KEY_ARENA_CAPACITY
  }

  /** The accumulators of a channel that was just looked up: empty ones when it is new. */
  method MakeRoom(worker: Aggregates, isNew: bool, id: nat, ghost dict: seq<Key>, ghost key: Key, ghost t: Table)
    requires Held(worker, dict, t) && (isNew <==> key !in dict) && (isNew ==> id == |dict| < MAP_CAPACITY)
    modifies worker.aggs
    ensures Held(worker, if key in dict then dict else dict + [key], Intern(t, key))
  {
    ghost var cells := worker.Cells();
    if isNew {
      InitMonths(worker, id);
      NewChannelInterns(dict, cells, key, worker.Cells());
    }
  }

  /** map_find_slot3_plus1 with the accumulators of a new channel: the table interns the
      channel.  The capacity errors do not occur within the published limits. */
  method Discover(map_: FlatMap, worker: Aggregates, key: Key, hash: Word32, ghost t: Table)
    returns (slot3: Option<Word16>)
    requires Holding(map_, worker, t) && hash == HashKey(key, map_.crc) && RoomForKey(t.dict, key)
    modifies map_, map_.entries, map_.keys, map_.fast, map_.fast2, map_.fast3, worker.aggs
    ensures Holding(map_, worker, Intern(t, key)) && |map_.dict| <= MAP_CAPACITY
    ensures slot3.Some? && key in map_.dict && slot3.value == Slot3(IndexOf(map_.dict, key))
  {
    var before := map_.size;
    ghost var dict := map_.dict;
    slot3 := map_.FindSlot3(key, hash);
    assert Held(worker, dict, t);
    MakeRoom(worker, map_.size > before, before, dict, key, t);
  }

  /** Writes the delayed increment. */
  method WriteUsed(worker: Aggregates, oldest: Delayed, dummy: Stats, ghost dict: seq<Key>, ghost p: Pending)
    returns (dummy': Stats)
    requires worker.Ok() && MONTHS * |dict| <= worker.aggs.Length && Blank(worker.Cells(), |dict|)
    requires PendingOk(p, |dict|) && StandsFor(oldest, p)
    modifies worker.aggs
    ensures worker.Ok() && Blank(worker.Cells(), |dict|)
    ensures Used(dict, worker.Cells()) == Drain(Used(dict, old(worker.Cells())), p)
  {
    ghost var cells := worker.Cells();
    dummy' := worker.WriteBack(oldest, dummy, p);
    if p.Queued? {
      var i := Slot(p.id, p.month);
      UsedUpdate(dict, cells, i, CellAdd(cells[i], p.length, p.stamps));
    }
  }

  /** Delays the row just read, or counts a long message at once. */
  method DelayUsed(worker: Aggregates, slot3: Word16, month: nat, length: Word32, stamps: Word32, ghost dict: seq<Key>,
                   ghost id: nat)
    returns (newest: Delayed)
    requires worker.Ok() && MONTHS * |dict| <= worker.aggs.Length && Blank(worker.Cells(), |dict|)
    requires id < |dict| <= MAX_IDS && month < MONTHS && slot3 == Slot3(id) && length >= 1
    modifies worker, worker.aggs, worker.wide
    ensures worker.Ok() && (worker.wide == old(worker.wide) || fresh(worker.wide)) && Blank(worker.Cells(), |dict|)
    ensures length >= NO_SAMPLE ==> newest == NOTHING &&
                                    Used(dict, worker.Cells()) == AddAt(Used(dict, old(worker.Cells())), id, month, length, stamps)
    ensures length < NO_SAMPLE ==> newest == Delayed(Some(Slot(id, month)), length, stamps, 1) &&
                                   Used(dict, worker.Cells()) == Used(dict, old(worker.Cells()))
  {
    ghost var cells := worker.Cells();
    newest := Delay(worker, slot3, month, length, stamps, id);
    if length >= NO_SAMPLE {
      var i := Slot(id, month);
      UsedUpdate(dict, cells, i, CellAdd(cells[i], length, stamps));
    }
  }

  /** Both on one row. */
  method WriteAndDelayOne(worker: Aggregates, slot3: Word16, month: nat, length: Word32, stamps: Word32, oldest: Delayed,
                          dummy: Stats, ghost dict: seq<Key>, ghost id: nat, ghost pending: Pending, ghost row: Row)
    returns (newest: Delayed, dummy': Stats)
    requires worker.Ok() && MONTHS * |dict| <= worker.aggs.Length && Blank(worker.Cells(), |dict|)
    requires id < |dict| <= MAX_IDS && slot3 == Slot3(id)
    requires RowOk(row) && month == row.month && length == row.length && stamps == row.stamps
    requires PendingOk(pending, |dict|) && StandsFor(oldest, pending)
    modifies worker, worker.aggs, worker.wide
    ensures worker.Ok() && (worker.wide == old(worker.wide) || fresh(worker.wide)) && Blank(worker.Cells(), |dict|)
    ensures StandsFor(newest, Newest(id, row))
    ensures (Used(dict, worker.Cells()), [Newest(id, row)]) ==
            Consume(Used(dict, old(worker.Cells())), [pending], id, row.month, row.length, row.stamps)
  {
    dummy' := WriteUsed(worker, oldest, dummy, dict, pending);
    newest := DelayUsed(worker, slot3, month, length, stamps, dict, id);
    assert [pending][1..] + [Newest(id, row)] == [Newest(id, row)];
  }

  /** The ID of a channel after it was interned. */
  ghost function IdAfter(t: Table, key: Key): (id: nat)
    ensures id < |Intern(t, key).dict|
  {
    IndexOf(Intern(t, key).dict, key)
  }

  /** One row of the discovery loop once it has been read: the channel is found or inserted,
      the delayed increment is written, and the row is delayed. */
  method DiscoverRow(map_: FlatMap, worker: Aggregates, key: Key, hash: Word32, month: nat, length: Word32, stamps: Word32,
                     oldest: Delayed, dummy: Stats, ghost t: Table, ghost pending: Pending, ghost row: Row)
    returns (newest: Delayed, dummy': Stats, ghost u: Table)
    requires |t.cells| == MONTHS * |t.dict| && RowOk(row) && PendingOk(pending, |t.dict|) && StandsFor(oldest, pending)
    requires key == row.channel && month == row.month && length == row.length && stamps == row.stamps
    requires Holding(map_, worker, t) && hash == HashKey(key, map_.crc) && RoomForKey(t.dict, key)
    modifies map_, map_.entries, map_.keys, map_.fast, map_.fast2, map_.fast3, worker, worker.aggs, worker.wide
    ensures (u, [Newest(IdAfter(t, key), row)]) ==
            Consume(Intern(t, key), [pending], IdAfter(t, key), row.month, row.length, row.stamps)
    ensures StandsFor(newest, Newest(IdAfter(t, key), row))
    ensures worker.wide == old(worker.wide) || fresh(worker.wide)
    ensures Holding(map_, worker, u)
  {
    var slot3 := Discover(map_, worker, key, hash, t);
    newest, dummy' := WriteAndDelayOne(worker, slot3.value, month, length, stamps, oldest, dummy, map_.dict,
                                       IndexOf(map_.dict, key), pending, row);
    u := Used(map_.dict, worker.Cells());
  }
}
