/** The reference generator's flatMap: channels indexed by open addressing with rehash, each
    with twelve statistics, as a finite map from channel and month to statistics. */
module GoMap {
  import opened ReferenceFold
  import opened Collections
  import opened Cells
  import opened Probing
  import opened Tables

  /** An entry is free when its length is zero; the tag is the high half of the hash. */
  datatype Entry = Entry(pos: nat, len: nat, id: Word16, tag: Word16)

  const FREE := Entry(0, 0, 0, 0)

  datatype GoStats = GoStats(messages: nat, total: nat, stamps: nat, minLen: Word16, maxLen: Word16)

  const NO_STATS := GoStats(0, 0, 0, 0, 0)

  type Hash = Key -> Word32

  function HomeIn(hash: Word32, capacity: nat): (i: nat)
    requires capacity > 0
    ensures i < capacity
  {
    hash % capacity
  }

  function Homes(dict: seq<Key>, hash: Hash, capacity: nat): (r: seq<nat>)
    requires capacity > 0
    ensures |r| == |dict|
    ensures forall id :: 0 <= id < |dict| ==> r[id] == HomeIn(hash(dict[id]), capacity)
  {
    seq(|dict|, id requires 0 <= id < |dict| => HomeIn(hash(dict[id]), capacity))
  }

  function Ids(entries: seq<Entry>): (r: Slots)
    ensures |r| == |entries|
  {
    seq(|entries|, i requires 0 <= i < |entries| => if entries[i].len == 0 then None else Some(entries[i].id))
  }

  function Tag(hash: Word32): Word16 { hash / 0x1_0000 }

  /** An entry describes its channel by a place in the input. */
  ghost predicate EntryOk(e: Entry, data: seq<Byte>, dict: seq<Key>, hash: Hash) {
    && e.id < |dict| && e.len == |dict[e.id]| && e.pos + e.len <= |data|
    && data[e.pos..e.pos + e.len] == dict[e.id] && e.tag == Tag(hash(dict[e.id]))
  }

  ghost predicate Described(entries: seq<Entry>, data: seq<Byte>, dict: seq<Key>, hash: Hash) {
    forall i :: 0 <= i < |entries| && entries[i].len != 0 ==> EntryOk(entries[i], data, dict, hash)
  }

  /** Some of the channels of `dict` are indexed, each under its ID. */
  ghost predicate Indexes(entries: seq<Entry>, data: seq<Byte>, dict: seq<Key>, loc: map<nat, nat>, hash: Hash) {
    && |entries| > 0
    && IndexOk(Ids(entries), loc, Homes(dict, hash, |entries|))
    && Described(entries, data, dict, hash)
  }

  /** Every channel is indexed. */
  ghost predicate Complete(loc: map<nat, nat>, n: nat) { forall id :: id in loc <==> 0 <= id < n }

  ghost predicate KeysOk(dict: seq<Key>) {
    Distinct(dict) && (forall id :: 0 <= id < |dict| ==> |dict[id]| > 0) && |dict| <= 0x1_0000
  }

  // ---- Probing -----------------------------------------------------------------------

  /** The entries a probe has passed hold other channels. */
  ghost predicate Passed(entries: seq<Entry>, dict: seq<Key>, key: Key, home: nat, i: nat) {
    forall j :: 0 <= j < |entries| && Between(home, j, i) ==>
                  entries[j].len != 0 && (entries[j].id < |dict| ==> dict[entries[j].id] != key)
  }

  /** A free entry ends the probe of every channel that is not indexed. */
  lemma UnknownAtFree(entries: seq<Entry>, data: seq<Byte>, dict: seq<Key>, loc: map<nat, nat>, hash: Hash, key: Key, i: nat,
                      id: nat)
    requires Indexes(entries, data, dict, loc, hash) && i < |entries| && entries[i].len == 0
    requires Passed(entries, dict, key, HomeIn(hash(key), |entries|), i) && id < |dict| && dict[id] == key
    ensures id !in loc
  {
    var slots, homes := Ids(entries), Homes(dict, hash, |entries|);
    forall j | 0 <= j < |slots| && Between(homes[id], j, i) ensures slots[j] != Some(id) {
      assert entries[j].len != 0;
    }
    AbsentAtEmpty(slots, loc, homes, id, i);
  }

  lemma PassedIsChained(entries: seq<Entry>, dict: seq<Key>, key: Key, home: nat, i: nat)
    requires Passed(entries, dict, key, home, i)
    ensures Chained(Ids(entries), home, i)
  {
  }

  lemma IdsUpdate(entries: seq<Entry>, i: nat, e: Entry)
    requires i < |entries| && e.len != 0
    ensures Ids(entries[i := e]) == Ids(entries)[i := Some(e.id)]
  {
  }

  /** A free entry exists while the load is below one, so probes end. */
  lemma ProbeEnds(entries: seq<Entry>, data: seq<Byte>, dict: seq<Key>, loc: map<nat, nat>, hash: Hash) returns (stop: nat)
    requires Indexes(entries, data, dict, loc, hash) && |loc| < |entries|
    ensures stop < |entries| && entries[stop].len == 0
  {
    stop := SomeSlotEmpty(Ids(entries), loc, Homes(dict, hash, |entries|));
  }

  /** Filling the free entry at the end of a probe with a channel already named in `dict`. */
  lemma FillKeepsIndex(entries: seq<Entry>, data: seq<Byte>, dict: seq<Key>, loc: map<nat, nat>, hash: Hash, i: nat, e: Entry)
    requires Indexes(entries, data, dict, loc, hash) && i < |entries| && entries[i].len == 0
    requires EntryOk(e, data, dict, hash) && e.len != 0 && e.id !in loc
    requires Chained(Ids(entries), HomeIn(hash(dict[e.id]), |entries|), i)
    ensures Indexes(entries[i := e], data, dict, loc[e.id := i], hash)
  {
    IdsUpdate(entries, i, e);
    InsertOk(Ids(entries), loc, Homes(dict, hash, |entries|), e.id, i);
  }

  /** One more channel in `dict` does not disturb the index. */
  lemma WiderDict(entries: seq<Entry>, data: seq<Byte>, dict: seq<Key>, loc: map<nat, nat>, hash: Hash, key: Key)
    requires Indexes(entries, data, dict, loc, hash)
    ensures Indexes(entries, data, dict + [key], loc, hash)
  {
  }

  // ---- Rehash ------------------------------------------------------------------------

  /** The IDs that the first n entries of the old table index are placed. */
  ghost predicate Moved(oldLoc: map<nat, nat>, n: nat, loc: map<nat, nat>) {
    forall id :: id in loc <==> id in oldLoc && oldLoc[id] < n
  }

  lemma MovedStep(entries: seq<Entry>, data: seq<Byte>, dict: seq<Key>, oldLoc: map<nat, nat>, hash: Hash, n: nat,
                  loc: map<nat, nat>, j: nat)
    requires Indexes(entries, data, dict, oldLoc, hash) && n < |entries| && Moved(oldLoc, n, loc)
    ensures entries[n].len == 0 ==> Moved(oldLoc, n + 1, loc)
    ensures entries[n].len != 0 ==>
              entries[n].id !in loc && entries[n].id in oldLoc && Moved(oldLoc, n + 1, loc[entries[n].id := j])
  {
    var slots := Ids(entries);
    forall id | id in oldLoc && oldLoc[id] == n ensures entries[n].len != 0 && entries[n].id == id {
      assert slots[n] == Some(id);
    }
    if entries[n].len != 0 {
      assert slots[n] == Some(entries[n].id);
    }
  }

  lemma FreeIndex(entries: seq<Entry>, data: seq<Byte>, dict: seq<Key>, hash: Hash)
    requires |entries| > 0 && forall i :: 0 <= i < |entries| ==> entries[i].len == 0
    ensures Indexes(entries, data, dict, map[], hash)
  {
  }

  /** insertRehashed: an entry of the old table finds a place in the new one. */
  method InsertRehashed(entries: array<Entry>, data: seq<Byte>, entry: Entry, hash: Hash, ghost dict: seq<Key>,
                        ghost loc: map<nat, nat>)
    returns (ghost at: nat)
    requires Indexes(entries[..], data, dict, loc, hash) && |loc| < entries.Length
    requires EntryOk(entry, data, dict, hash) && entry.len != 0 && entry.id !in loc
    modifies entries
    ensures Indexes(entries[..], data, dict, loc[entry.id := at], hash)
  {
    var index := FreePlace(entries, data, hash(data[entry.pos..entry.pos + entry.len]), dict, loc, hash);
    ghost var before := entries[..];
    FillKeepsIndex(before, data, dict, loc, hash, index, entry);
    entries[index] := entry;
    assert entries[..] == before[index := entry];
    at := index;
  }

  /** The first free entry from a hash's home. */
  method FreePlace(entries: array<Entry>, data: seq<Byte>, keyHash: Word32, ghost dict: seq<Key>, ghost loc: map<nat, nat>,
                   ghost hash: Hash)
    returns (index: nat)
    requires Indexes(entries[..], data, dict, loc, hash) && |loc| < entries.Length
    ensures index < entries.Length && entries[index].len == 0
    ensures Chained(Ids(entries[..]), HomeIn(keyHash, entries.Length), index)
  {
    var home := HomeIn(keyHash, entries.Length);
    ghost var stop := ProbeEnds(entries[..], data, dict, loc, hash);
    index := home;
    while entries[index].len != 0
      invariant index < entries.Length
      invariant index == stop || index == home || Between(home, index, stop)
      invariant Chained(Ids(entries[..]), home, index)
      decreases Distance(index, stop, entries.Length)
    {
      ProbeStep(home, index, stop, entries.Length);
      ChainStep(entries[..], home, index);
      index := Next(index, entries.Length);
    }
  }

  lemma ChainStep(entries: seq<Entry>, home: nat, index: nat)
    requires index < |entries| && home < |entries| && entries[index].len != 0 && Chained(Ids(entries), home, index)
    requires index == home || Next(index, |entries|) != home
    ensures Chained(Ids(entries), home, Next(index, |entries|))
  {
  }

  lemma MovedSize(oldLoc: map<nat, nat>, n: nat, loc: map<nat, nat>)
    requires Moved(oldLoc, n, loc)
    ensures |loc| <= |oldLoc|
  {
    SubsetSize(loc.Keys, oldLoc.Keys);
    assert |loc.Keys| == |loc| && |oldLoc.Keys| == |oldLoc|;
  }

  lemma OneMorePlaced(loc: map<nat, nat>, id: nat, at: nat)
    requires id !in loc
    ensures |loc[id := at]| == |loc| + 1
  {
  }

  /** One turn of rehash; `moved` counts the channels in the new table. */
  method MoveEntry(e: Entry, larger: array<Entry>, data: seq<Byte>, hash: Hash, moved: nat, ghost start: seq<Entry>,
                   ghost dict: seq<Key>, ghost placed: map<nat, nat>, ghost i: nat, ghost loc: map<nat, nat>)
    returns (moved': nat, ghost loc': map<nat, nat>)
    requires i < |start| && e == start[i] && Indexes(start, data, dict, placed, hash) && |placed| < larger.Length
    requires Indexes(larger[..], data, dict, loc, hash) && Moved(placed, i, loc) && moved == |loc|
    modifies larger
    ensures Indexes(larger[..], data, dict, loc', hash) && Moved(placed, i + 1, loc') && moved' == |loc'|
  {
    if e.len != 0 {
      MovedStep(start, data, dict, placed, hash, i, loc, 0);
      MovedSize(placed, i, loc);
      assert EntryOk(start[i], data, dict, hash);
      ghost var at := InsertRehashed(larger, data, e, hash, dict, loc);
      MovedStep(start, data, dict, placed, hash, i, loc, at);
      OneMorePlaced(loc, e.id, at);
      moved', loc' := moved + 1, loc[e.id := at];
    } else {
      MovedStep(start, data, dict, placed, hash, i, loc, 0);
      moved', loc' := moved, loc;
    }
  }

  /** The loop of rehash, into a table of free entries. */
  method MoveAll(before: array<Entry>, larger: array<Entry>, data: seq<Byte>, hash: Hash, ghost dict: seq<Key>,
                 ghost placed: map<nat, nat>)
    returns (moved: nat, ghost loc: map<nat, nat>)
    requires before != larger && |placed| < larger.Length && Indexes(before[..], data, dict, placed, hash)
    requires forall i :: 0 <= i < larger.Length ==> larger[i].len == 0
    modifies larger
    ensures Indexes(larger[..], data, dict, loc, hash) && moved == |loc|
    ensures forall id :: id in loc <==> id in placed
  {
    moved, loc := 0, map[];
    FreeIndex(larger[..], data, dict, hash);
    for i := 0 to before.Length
      invariant Indexes(larger[..], data, dict, loc, hash) && Moved(placed, i, loc) && moved == |loc|
    {
      moved, loc := MoveEntry(before[i], larger, data, hash, moved, before[..], dict, placed, i, loc);
    }
    AllMoved(before[..], data, dict, placed, hash, loc);
  }

  lemma AllMoved(entries: seq<Entry>, data: seq<Byte>, dict: seq<Key>, placed: map<nat, nat>, hash: Hash, loc: map<nat, nat>)
    requires Indexes(entries, data, dict, placed, hash) && Moved(placed, |entries|, loc)
    ensures forall id :: id in loc <==> id in placed
  {
  }

  // ---- Statistics --------------------------------------------------------------------

  function StatOf(s: GoStats): Stat {
    if s.messages == 0 then None else Some(Acc(s.minLen, s.total, s.maxLen, s.messages, s.stamps))
  }

  /** uint16(messageLength) */
  function Narrow(length: nat): Word16 { length % 0x1_0000 }

  /** One row in its statistics. */
  function AddStats(s: GoStats, length: nat, stamps: nat): GoStats {
    if s.messages == 0 then GoStats(1, length, stamps, Narrow(length), Narrow(length))
    else
      GoStats(s.messages + 1, s.total + length, s.stamps + stamps,
              if Narrow(length) < s.minLen then Narrow(length) else s.minLen,
              if Narrow(length) > s.maxLen then Narrow(length) else s.maxLen)
  }

  function MergeGoStats(s: GoStats, incoming: GoStats): GoStats {
    if incoming.messages == 0 then s
    else if s.messages == 0 then incoming
    else
      GoStats(s.messages + incoming.messages, s.total + incoming.total, s.stamps + incoming.stamps,
              if incoming.minLen < s.minLen then incoming.minLen else s.minLen,
              if incoming.maxLen > s.maxLen then incoming.maxLen else s.maxLen)
  }

  /** What the generator keeps of one row: the least and greatest length have 16 bits. */
  function Truncated(length: nat, stamps: nat): Stat {
    Some(Acc(Narrow(length), length, Narrow(length), 1, stamps))
  }

  /** Adding a row of any length is a reference merge, with its truncated length in the extrema. */
  lemma AddStatsRefines(s: GoStats, length: nat, stamps: nat)
    ensures StatOf(AddStats(s, length, stamps)) == Merge(StatOf(s), Truncated(length, stamps))
    ensures Truncated(length, stamps) == Single(length, stamps) <==> length < 0x1_0000
  {
  }

  lemma MergeGoStatsRefines(s: GoStats, incoming: GoStats)
    ensures StatOf(MergeGoStats(s, incoming)) == Merge(StatOf(s), StatOf(incoming))
  {
  }

  /** What a map holds for a group. */
  ghost function Holds(dict: seq<Key>, aggs: seq<GoStats>, channel: Key, month: nat): Stat
    requires |aggs| == MONTHS * |dict|
  {
    if channel in dict && month < MONTHS then StatOf(aggs[Slot(IndexOf(dict, channel), month)]) else None
  }

  function NewAgg(): seq<GoStats> { seq(MONTHS, i => NO_STATS) }

  /** Channel `key` is known in the new map, and only its group of month m may have changed. */
  ghost predicate Touched(dict: seq<Key>, aggs: seq<GoStats>, dict': seq<Key>, aggs': seq<GoStats>, key: Key) {
    && |aggs| == MONTHS * |dict| && |aggs'| == MONTHS * |dict'|
    && dict' == (if key in dict then dict else dict + [key])
    && forall channel: Key, month: nat :: channel != key ==>
         Holds(dict', aggs', channel, month) == Holds(dict, aggs, channel, month)
  }

  /** At most the channel is new, and no group has changed. */
  ghost predicate OnlyKnown(dict: seq<Key>, aggs: seq<GoStats>, dict': seq<Key>, aggs': seq<GoStats>, key: Key) {
    && Touched(dict, aggs, dict', aggs', key)
    && forall m: nat :: Holds(dict', aggs', key, m) == Holds(dict, aggs, key, m)
  }

  /** One row was merged into its group; every other group is as before. */
  ghost predicate RowAdded(dict: seq<Key>, aggs: seq<GoStats>, dict': seq<Key>, aggs': seq<GoStats>, key: Key, month: nat,
                           length: nat, stamps: nat)
  {
    && Touched(dict, aggs, dict', aggs', key)
    && forall m: nat :: Holds(dict', aggs', key, m) ==
                        if m == month then Merge(Holds(dict, aggs, key, m), Truncated(length, stamps)) else Holds(dict, aggs, key, m)
  }

  /** A channel's twelve statistics were merged into its groups; every other is as before. */
  ghost predicate ChannelMerged(dict: seq<Key>, aggs: seq<GoStats>, dict': seq<Key>, aggs': seq<GoStats>, key: Key,
                                incoming: seq<GoStats>)
    requires |incoming| == MONTHS
  {
    && Touched(dict, aggs, dict', aggs', key)
    && forall m: nat :: m < MONTHS ==>
         Holds(dict', aggs', key, m) == Merge(Holds(dict, aggs, key, m), StatOf(incoming[m]))
  }

  /** findOrInsert changes no group. */
  lemma InternTouches(dict: seq<Key>, aggs: seq<GoStats>, key: Key)
    requires Distinct(dict) && |aggs| == MONTHS * |dict|
    ensures var known := key in dict;
            OnlyKnown(dict, aggs, if known then dict else dict + [key], if known then aggs else aggs + NewAgg(), key)
  {
  }

  lemma AddTouches(dict: seq<Key>, aggs: seq<GoStats>, dict': seq<Key>, aggs': seq<GoStats>, key: Key, id: nat, month: nat,
                   length: nat, stamps: nat)
    requires OnlyKnown(dict, aggs, dict', aggs', key) && Distinct(dict') && id < |dict'| && dict'[id] == key
    requires month < MONTHS
    ensures RowAdded(dict, aggs, dict', aggs'[Slot(id, month) := AddStats(aggs'[Slot(id, month)], length, stamps)], key, month,
                     length, stamps)
  {
  }

  /** The statistics after the first n months of a channel were merged. */
  function MergeMonths(aggs: seq<GoStats>, id: nat, incoming: seq<GoStats>, n: nat): (r: seq<GoStats>)
    requires n <= MONTHS && |incoming| == MONTHS && Slot(id + 1, 0) <= |aggs|
    ensures |r| == |aggs|
    ensures forall i :: 0 <= i < |aggs| && !(Slot(id, 0) <= i < Slot(id, n)) ==> r[i] == aggs[i]
  {
    if n == 0 then aggs
    else
      var front := MergeMonths(aggs, id, incoming, n - 1);
      front[Slot(id, n - 1) := MergeGoStats(front[Slot(id, n - 1)], incoming[n - 1])]
  }

  lemma {:induction false} MergeMonthsAt(aggs: seq<GoStats>, id: nat, incoming: seq<GoStats>, n: nat, m: nat)
    requires m < n <= MONTHS && |incoming| == MONTHS && Slot(id + 1, 0) <= |aggs|
    ensures MergeMonths(aggs, id, incoming, n)[Slot(id, m)] == MergeGoStats(aggs[Slot(id, m)], incoming[m])
  {
    if m < n - 1 {
      MergeMonthsAt(aggs, id, incoming, n - 1, m);
    }
  }

  lemma MergeTouches(dict: seq<Key>, aggs: seq<GoStats>, dict': seq<Key>, aggs': seq<GoStats>, key: Key, id: nat,
                     incoming: seq<GoStats>)
    requires OnlyKnown(dict, aggs, dict', aggs', key) && Distinct(dict') && id < |dict'| && dict'[id] == key
    requires |incoming| == MONTHS
    ensures ChannelMerged(dict, aggs, dict', MergeMonths(aggs', id, incoming, MONTHS), key, incoming)
  {
    var after := MergeMonths(aggs', id, incoming, MONTHS);
    IndexOfAt(dict', id);
    forall m: nat | m < MONTHS
      ensures Holds(dict', after, key, m) == Merge(Holds(dict, aggs, key, m), StatOf(incoming[m]))
    {
      MergeMonthsAt(aggs', id, incoming, MONTHS, m);
      MergeGoStatsRefines(aggs'[Slot(id, m)], incoming[m]);
      assert Holds(dict', aggs', key, m) == Holds(dict, aggs, key, m);
    }
    forall channel: Key, m: nat | channel != key ensures Holds(dict', after, channel, m) == Holds(dict', aggs', channel, m) {
      if channel in dict' && m < MONTHS {
        assert dict'[IndexOf(dict', channel)] == channel;
      }
    }
  }

  /** What another map contributes once its entries below n have been merged. */
  ghost function Given(dict: seq<Key>, aggs: seq<GoStats>, loc: map<nat, nat>, n: nat, channel: Key, month: nat): Stat
    requires |aggs| == MONTHS * |dict|
  {
    if channel in dict && IndexOf(dict, channel) in loc && loc[IndexOf(dict, channel)] < n
    then Holds(dict, aggs, channel, month) else None
  }

  ghost predicate MergedPrefix(dict: seq<Key>, aggs: seq<GoStats>, dict': seq<Key>, aggs': seq<GoStats>,
                               other: seq<Key>, otherAggs: seq<GoStats>, otherLoc: map<nat, nat>, n: nat)
  {
    && |aggs| == MONTHS * |dict| && |aggs'| == MONTHS * |dict'| && |otherAggs| == MONTHS * |other|
    && (forall key :: key in dict' ==> key in dict || key in other)
    && forall channel: Key, m: nat :: Holds(dict', aggs', channel, m) ==
         Merge(Holds(dict, aggs, channel, m), Given(other, otherAggs, otherLoc, n, channel, m))
  }

  /** Every group is the reference merge of the groups of both maps. */
  ghost predicate MergedMaps(dict: seq<Key>, aggs: seq<GoStats>, dict': seq<Key>, aggs': seq<GoStats>,
                             other: seq<Key>, otherAggs: seq<GoStats>)
  {
    && |aggs| == MONTHS * |dict| && |aggs'| == MONTHS * |dict'| && |otherAggs| == MONTHS * |other|
    && forall channel: Key, m: nat :: Holds(dict', aggs', channel, m) ==
         Merge(Holds(dict, aggs, channel, m), Holds(other, otherAggs, channel, m))
  }

  lemma AllGiven(dict: seq<Key>, aggs: seq<GoStats>, dict': seq<Key>, aggs': seq<GoStats>, entries: seq<Entry>,
                 data: seq<Byte>, other: seq<Key>, otherAggs: seq<GoStats>, otherLoc: map<nat, nat>, hash: Hash)
    requires Indexes(entries, data, other, otherLoc, hash) && Complete(otherLoc, |other|)
    requires MergedPrefix(dict, aggs, dict', aggs', other, otherAggs, otherLoc, |entries|)
    ensures MergedMaps(dict, aggs, dict', aggs', other, otherAggs)
  {
  }

  /** The place n holds at most one channel of the other map. */
  lemma GivenStep(entries: seq<Entry>, data: seq<Byte>, dict: seq<Key>, aggs: seq<GoStats>, loc: map<nat, nat>, hash: Hash,
                  n: nat, channel: Key, month: nat)
    requires Indexes(entries, data, dict, loc, hash) && Complete(loc, |dict|) && KeysOk(dict) && |aggs| == MONTHS * |dict|
    requires n < |entries|
    ensures Given(dict, aggs, loc, n + 1, channel, month) ==
            if entries[n].len != 0 && entries[n].id < |dict| && dict[entries[n].id] == channel
            then Holds(dict, aggs, channel, month)
            else Given(dict, aggs, loc, n, channel, month)
    ensures entries[n].len != 0 ==>
              entries[n].id < |dict| && Given(dict, aggs, loc, n, dict[entries[n].id], month) == None
  {
    var slots := Ids(entries);
    if entries[n].len != 0 {
      assert slots[n] == Some(entries[n].id);
      IndexOfAt(dict, entries[n].id);
    }
    if channel in dict {
      var id := IndexOf(dict, channel);
      assert slots[loc[id]] == Some(id);
    }
  }

  lemma MergedStep(dict: seq<Key>, aggs: seq<GoStats>, before: seq<Key>, beforeAggs: seq<GoStats>, after: seq<Key>,
                   afterAggs: seq<GoStats>, entries: seq<Entry>, data: seq<Byte>, other: seq<Key>, otherAggs: seq<GoStats>,
                   otherLoc: map<nat, nat>, hash: Hash, n: nat)
    requires Indexes(entries, data, other, otherLoc, hash) && Complete(otherLoc, |other|) && KeysOk(other)
    requires n < |entries| && entries[n].len != 0 && entries[n].id < |other|
    requires MergedPrefix(dict, aggs, before, beforeAggs, other, otherAggs, otherLoc, n)
    requires ChannelMerged(before, beforeAggs, after, afterAggs, other[entries[n].id],
                           otherAggs[Slot(entries[n].id, 0)..Slot(entries[n].id as nat + 1, 0)])
    ensures MergedPrefix(dict, aggs, after, afterAggs, other, otherAggs, otherLoc, n + 1)
  {
    var id: nat := entries[n].id;
    var key := other[id];
    IndexOfAt(other, id);
    forall channel: Key, m: nat
      ensures Holds(after, afterAggs, channel, m) ==
              Merge(Holds(dict, aggs, channel, m), Given(other, otherAggs, otherLoc, n + 1, channel, m))
    {
      GivenStep(entries, data, other, otherAggs, otherLoc, hash, n, channel, m);
      assert Holds(before, beforeAggs, channel, m) ==
             Merge(Holds(dict, aggs, channel, m), Given(other, otherAggs, otherLoc, n, channel, m));
      if channel == key && m < MONTHS {
        assert otherAggs[Slot(id, 0)..Slot(id + 1, 0)][m] == otherAggs[Slot(id, m)];
      }
    }
  }

  predicate PowerOfTwo(n: nat) { n == 1 || (n > 1 && n % 2 == 0 && PowerOfTwo(n / 2)) }

  /** The comparison of an entry with a channel: tag and length first, then the bytes. */
  predicate Matches(e: Entry, data: seq<Byte>, pos: nat, length: nat, keyHash: Word32)
    requires e.pos + e.len <= |data| && pos + length <= |data|
  {
    e.tag == Tag(keyHash) && e.len == length && data[e.pos..e.pos + e.len] == data[pos..pos + length]
  }

  lemma MatchesMeaning(e: Entry, data: seq<Byte>, dict: seq<Key>, hash: Hash, pos: nat, length: nat)
    requires EntryOk(e, data, dict, hash) && pos + length <= |data|
    ensures Matches(e, data, pos, length, hash(data[pos..pos + length])) <==> dict[e.id] == data[pos..pos + length]
  {
  }

  /** Where the probe for a channel stops at the latest. */
  lemma Stop(entries: seq<Entry>, data: seq<Byte>, dict: seq<Key>, loc: map<nat, nat>, hash: Hash, key: Key)
    returns (stop: nat)
    requires Indexes(entries, data, dict, loc, hash) && |loc| < |entries|
    requires Complete(loc, |dict|)
    ensures stop < |entries|
    ensures entries[stop].len == 0 || (entries[stop].id < |dict| && dict[entries[stop].id] == key)
  {
    if key in dict {
      var id :| 0 <= id < |dict| && dict[id] == key;
      stop := loc[id];
      assert Ids(entries)[stop] == Some(id);
    } else {
      stop := ProbeEnds(entries, data, dict, loc, hash);
    }
  }

  lemma UnknownKey(entries: seq<Entry>, data: seq<Byte>, dict: seq<Key>, loc: map<nat, nat>, hash: Hash, key: Key, i: nat)
    requires Indexes(entries, data, dict, loc, hash) && i < |entries| && entries[i].len == 0
    requires Complete(loc, |dict|)
    requires Passed(entries, dict, key, HomeIn(hash(key), |entries|), i)
    ensures key !in dict
  {
    if key in dict {
      var id :| 0 <= id < |dict| && dict[id] == key;
      UnknownAtFree(entries, data, dict, loc, hash, key, i, id);
    }
  }

  /** The probe loop of findOrInsert: the channel's entry, or the free one where it belongs. */
  method Probe(entries: array<Entry>, data: seq<Byte>, pos: nat, length: nat, keyHash: Word32, ghost dict: seq<Key>,
               ghost loc: map<nat, nat>, ghost hash: Hash)
    returns (index: nat)
    requires Indexes(entries[..], data, dict, loc, hash) && |loc| < entries.Length
    requires Complete(loc, |dict|)
    requires pos + length <= |data| && keyHash == hash(data[pos..pos + length])
    ensures index < entries.Length
    ensures entries[index].len != 0 ==> entries[index].id < |dict| && dict[entries[index].id] == data[pos..pos + length]
    ensures entries[index].len == 0 ==> data[pos..pos + length] !in dict
    ensures Chained(Ids(entries[..]), HomeIn(keyHash, entries.Length), index)
  {
    ghost var key := data[pos..pos + length];
    var home := HomeIn(keyHash, entries.Length);
    ghost var stop := Stop(entries[..], data, dict, loc, hash, key);
    index := home;
    while entries[index].len != 0
      invariant index < entries.Length
      invariant index == stop || index == home || Between(home, index, stop)
      invariant Passed(entries[..], dict, key, home, index)
      decreases Distance(index, stop, entries.Length)
    {
      assert EntryOk(entries[..][index], data, dict, hash);
      MatchesMeaning(entries[index], data, dict, hash, pos, length);
      if Matches(entries[index], data, pos, length, keyHash) {
        PassedIsChained(entries[..], dict, key, home, index);
        return;
      }
      ProbeStep(home, index, stop, entries.Length);
      index := Next(index, entries.Length);
    }
    PassedIsChained(entries[..], dict, key, home, index);
    UnknownKey(entries[..], data, dict, loc, hash, key, index);
  }

  /** A new channel in the free entry where its probe ended. */
  lemma NewChannel(entries: seq<Entry>, data: seq<Byte>, dict: seq<Key>, loc: map<nat, nat>, hash: Hash, i: nat, e: Entry)
    requires Indexes(entries, data, dict, loc, hash) && Complete(loc, |dict|) && KeysOk(dict)
    requires i < |entries| && entries[i].len == 0 && e.len > 0 && e.pos + e.len <= |data| && e.id == |dict|
    requires e.tag == Tag(hash(data[e.pos..e.pos + e.len])) && data[e.pos..e.pos + e.len] !in dict
    requires Chained(Ids(entries), HomeIn(hash(data[e.pos..e.pos + e.len]), |entries|), i)
    ensures var wider := dict + [data[e.pos..e.pos + e.len]];
            && Indexes(entries[i := e], data, wider, loc[e.id as nat := i], hash) && KeysOk(wider)
            && Complete(loc[e.id as nat := i], |wider|)
  {
    var key := data[e.pos..e.pos + e.len];
    var wider := dict + [key];
    assert wider[|dict|] == key;
    WiderDict(entries, data, dict, loc, hash, key);
    FillKeepsIndex(entries, data, wider, loc, hash, i, e);
  }

  // ---- The map -----------------------------------------------------------------------

  class FlatMap {
    const data: seq<Byte>
    const hash: Hash
    var entries: array<Entry>
    var aggs: seq<GoStats>
    var size: nat
    ghost var dict: seq<Key>
    ghost var loc: map<nat, nat>

    ghost predicate Indexed()
      reads `entries, `dict, `loc, entries
    {
      && Indexes(entries[..], data, dict, loc, hash) && KeysOk(dict)
      && Complete(loc, |dict|)
    }

    ghost predicate Valid()
      reads this, entries
    {
      && Indexed() && size == |dict| && |aggs| == MONTHS * |dict|
      && size * 10 < entries.Length * 7 && PowerOfTwo(entries.Length)
    }

    /** newFlatMap: the capacity is rounded up to a power of two. */
    constructor (data: seq<Byte>, hash: Hash, capacity: nat)
      ensures Valid() && fresh(entries) && dict == [] && this.data == data && this.hash == hash
      ensures capacity <= entries.Length
    {
      var c := 1;
      while c < capacity
        invariant c >= 1 && PowerOfTwo(c)
      {
        c := c * 2;
      }
      this.data, this.hash := data, hash;
      entries := new Entry[c](i => FREE);
      aggs, size := [], 0;
      dict, loc := [], map[];
      new;
      FreeIndex(entries[..], data, [], hash);
    }

    /** rehash: a larger table with the same channels under the same IDs. */
    method Rehash(capacity: nat)
      requires Indexed() && size == |dict| < capacity
      modifies this`entries, this`size, this`loc
      ensures Indexed() && fresh(entries) && entries.Length == capacity && size == old(size)
    {
      LocSize(loc, |dict|);
      var larger := new Entry[capacity](i => FREE);
      ghost var moved;
      size, moved := MoveAll(entries, larger, data, hash, dict, loc);
      entries := larger;
      loc := moved;
      LocSize(loc, |dict|);
    }
  
    /** The insertion of findOrInsert, in the free entry where the probe ended. */
    method Enter(index: nat, pos: nat, length: nat, keyHash: Word32)
      requires Indexed() && size == |dict| < 0x1_0000 && |aggs| == MONTHS * |dict|
      requires pos + length <= |data| && length > 0 && keyHash == hash(data[pos..pos + length])
      requires index < entries.Length && entries[index].len == 0 && data[pos..pos + length] !in dict
      requires Chained(Ids(entries[..]), HomeIn(keyHash, entries.Length), index)
      modifies this, entries
      ensures Indexed() && size == |dict| && entries == old(entries)
      ensures dict == old(dict) + [data[pos..pos + length]] && aggs == old(aggs) + NewAgg()
    {
      var e := Entry(pos, length, |aggs| / MONTHS, Tag(keyHash));
      ghost var before := entries[..];
      NewChannel(before, data, dict, loc, hash, index, e);
      entries[index] := e;
      assert entries[..] == before[index := e];
      loc := loc[e.id as nat := index];
      dict := dict + [data[pos..pos + length]];
      aggs := aggs + NewAgg();
      size := size + 1;
    }

    /** findOrInsert, with room for one more channel. */
    method FindOrInsert(pos: nat, length: nat, keyHash: Word32) returns (id: nat)
      requires Indexed() && size == |dict| && |aggs| == MONTHS * |dict| && (size + 1) * 10 < entries.Length * 7
      requires pos + length <= |data| && length > 0 && keyHash == hash(data[pos..pos + length])
      requires data[pos..pos + length] in dict || |dict| < 0x1_0000
      modifies this, entries
      ensures Indexed() && size == |dict| && entries == old(entries)
      ensures if data[pos..pos + length] in old(dict) then dict == old(dict) && aggs == old(aggs)
              else dict == old(dict) + [data[pos..pos + length]] && aggs == old(aggs) + NewAgg()
      ensures id < |dict| && dict[id] == data[pos..pos + length]
    {
      LocSize(loc, |dict|);
      var index := Probe(entries, data, pos, length, keyHash, dict, loc, hash);
      if entries[index].len != 0 {
        id := entries[index].id;
      } else {
        Enter(index, pos, length, keyHash);
        id := size - 1;
      }
    }
  
    /** The load check before an insertion. */
    method MakeRoom()
      requires Valid()
      modifies this`entries, this`size, this`loc
      ensures Indexed() && size == |dict| && (size + 1) * 10 < entries.Length * 7 && PowerOfTwo(entries.Length)
      ensures entries == old(entries) || fresh(entries)
    {
      if (size + 1) * 10 >= entries.Length * 7 {
        Rehash(entries.Length * 2);
      }
    }

    /** The entry of a channel when there is room. */
    method Intern(pos: nat, length: nat, keyHash: Word32, ghost key: Key) returns (id: nat)
      requires Indexed() && size == |dict| && |aggs| == MONTHS * |dict|
      requires (size + 1) * 10 < entries.Length * 7 && PowerOfTwo(entries.Length)
      requires pos + length <= |data| && length > 0 && key == data[pos..pos + length] && keyHash == hash(key)
      requires key in dict || |dict| < 0x1_0000
      modifies this, entries
      ensures Valid() && entries == old(entries)
      ensures id < |dict| && dict[id] == key
      ensures OnlyKnown(old(dict), old(aggs), dict, aggs, key)
    {
      InternTouches(dict, aggs, key);
      id := FindOrInsert(pos, length, keyHash);
    }

    /** The entry of a channel after the load check: at most the channel is new. */
    method Channel(pos: nat, length: nat, keyHash: Word32, ghost key: Key) returns (id: nat)
      requires Valid() && pos + length <= |data| && length > 0 && key == data[pos..pos + length] && keyHash == hash(key)
      requires key in dict || |dict| < 0x1_0000
      modifies this, entries
      ensures Valid() && (entries == old(entries) || fresh(entries))
      ensures id < |dict| && dict[id] == key
      ensures OnlyKnown(old(dict), old(aggs), dict, aggs, key)
    {
      MakeRoom();
      id := Intern(pos, length, keyHash, key);
    }

    /** add: one row is merged into its group, and every other group stays. */
    method Add(pos: nat, length: nat, keyHash: Word32, month: nat, messageLength: nat, stamps: nat, ghost key: Key)
      requires Valid() && pos + length <= |data| && length > 0 && key == data[pos..pos + length] && keyHash == hash(key)
      requires key in dict || |dict| < 0x1_0000
      requires month < MONTHS
      modifies this, entries
      ensures Valid() && (entries == old(entries) || fresh(entries))
      ensures RowAdded(old(dict), old(aggs), dict, aggs, key, month, messageLength, stamps)
    {
      var id := Channel(pos, length, keyHash, key);
      AddInto(id, month, messageLength, stamps, key, old(dict), old(aggs));
    }

    /** One row of a channel that is already known. */
    method AddInto(id: nat, month: nat, messageLength: nat, stamps: nat, ghost key: Key, ghost dict0: seq<Key>,
                   ghost aggs0: seq<GoStats>)
      requires Valid() && id < |dict| && dict[id] == key && month < MONTHS
      requires OnlyKnown(dict0, aggs0, dict, aggs, key)
      modifies this`aggs
      ensures Valid() && RowAdded(dict0, aggs0, dict, aggs, key, month, messageLength, stamps)
    {
      AddTouches(dict0, aggs0, dict, aggs, key, id, month, messageLength, stamps);
      aggs := aggs[MONTHS * id + month := AddStats(aggs[MONTHS * id + month], messageLength, stamps)];
    }

    /** The month loop of mergeFrom. */
    method MergeAgg(id: nat, incoming: seq<GoStats>)
      requires |aggs| == MONTHS * |dict| && id < |dict| && |incoming| == MONTHS
      modifies this`aggs
      ensures aggs == MergeMonths(old(aggs), id, incoming, MONTHS)
    {
      ghost var before := aggs;
      for month := 0 to MONTHS
        invariant aggs == MergeMonths(before, id, incoming, month)
      {
        aggs := aggs[MONTHS * id + month := MergeGoStats(aggs[MONTHS * id + month], incoming[month])];
      }
    }

    /** All months of a channel that is already known. */
    method MergeInto(id: nat, incoming: seq<GoStats>, ghost key: Key, ghost dict0: seq<Key>, ghost aggs0: seq<GoStats>)
      requires Valid() && id < |dict| && dict[id] == key && |incoming| == MONTHS
      requires OnlyKnown(dict0, aggs0, dict, aggs, key)
      modifies this`aggs
      ensures Valid() && ChannelMerged(dict0, aggs0, dict, aggs, key, incoming)
    {
      MergeTouches(dict0, aggs0, dict, aggs, key, id, incoming);
      MergeAgg(id, incoming);
    }

    /** One entry of mergeFrom. */
    method MergeEntry(e: Entry, incoming: seq<GoStats>, ghost key: Key)
      requires Valid() && e.pos + e.len <= |data| && e.len > 0 && |incoming| == MONTHS && key == data[e.pos..e.pos + e.len]
      requires key in dict || |dict| < 0x1_0000
      modifies this, entries
      ensures Valid() && (entries == old(entries) || fresh(entries))
      ensures ChannelMerged(old(dict), old(aggs), dict, aggs, key, incoming)
    {
      var id := Channel(e.pos, e.len, hash(data[e.pos..e.pos + e.len]), key);
      MergeInto(id, incoming, key, old(dict), old(aggs));
    }

    /** mergeFrom: group by group, the reference merge of both maps. */
    method MergeFrom(other: FlatMap, ghost universe: set<Key>)
      requires Valid() && other.Valid() && other != this && other.entries != entries && other.data == data && other.hash == hash
      requires |universe| <= 0x1_0000 && forall key :: key in dict || key in other.dict ==> key in universe
      modifies this, entries
      ensures Valid() && (entries == old(entries) || fresh(entries))
      ensures forall key :: key in dict ==> key in universe
      ensures MergedMaps(old(dict), old(aggs), dict, aggs, other.dict, other.aggs)
    {
      for i := 0 to other.entries.Length
        invariant Valid() && (entries == old(entries) || fresh(entries)) && other.Valid() && other.entries != entries
        invariant MergedPrefix(old(dict), old(aggs), dict, aggs, other.dict, other.aggs, other.loc, i)
        invariant forall key :: key in dict ==> key in universe
      {
        MergePlace(other.entries[i], other.aggs, i, other.entries[..], other.dict, other.loc, old(dict), old(aggs), universe);
      }
      AllGiven(old(dict), old(aggs), dict, aggs, other.entries[..], data, other.dict, other.aggs, other.loc, hash);
    }

    /** Place i of the other map, free or full. */
    method MergePlace(e: Entry, otherAggs: seq<GoStats>, ghost i: nat, ghost others: seq<Entry>, ghost otherDict: seq<Key>,
                      ghost otherLoc: map<nat, nat>, ghost dict0: seq<Key>, ghost aggs0: seq<GoStats>, ghost universe: set<Key>)
      requires Valid() && i < |others| && others[i] == e
      requires Indexes(others, data, otherDict, otherLoc, hash) && Complete(otherLoc, |otherDict|) && KeysOk(otherDict)
      requires MergedPrefix(dict0, aggs0, dict, aggs, otherDict, otherAggs, otherLoc, i)
      requires |universe| <= 0x1_0000 && forall key :: key in dict || key in otherDict ==> key in universe
      modifies this, entries
      ensures Valid() && (entries == old(entries) || fresh(entries))
      ensures MergedPrefix(dict0, aggs0, dict, aggs, otherDict, otherAggs, otherLoc, i + 1)
      ensures forall key :: key in dict ==> key in universe
    {
      NextGiven(others, data, otherDict, otherAggs, otherLoc, hash, i, dict0, aggs0, dict, aggs);
      if e.len != 0 {
        MergeOne(e, otherAggs[MONTHS * e.id as nat..MONTHS * (e.id as nat + 1)], i, others, otherDict, otherAggs, otherLoc,
                 dict0, aggs0, universe);
      }
    }

    /** A full entry, the one at place i of the other map. */
    method MergeOne(e: Entry, incoming: seq<GoStats>, ghost i: nat, ghost others: seq<Entry>, ghost otherDict: seq<Key>,
                    ghost otherAggs: seq<GoStats>, ghost otherLoc: map<nat, nat>, ghost dict0: seq<Key>,
                    ghost aggs0: seq<GoStats>, ghost universe: set<Key>)
      requires Valid() && i < |others| && others[i] == e && e.len != 0 && EntryOk(e, data, otherDict, hash)
      requires Indexes(others, data, otherDict, otherLoc, hash) && Complete(otherLoc, |otherDict|) && KeysOk(otherDict)
      requires MergedPrefix(dict0, aggs0, dict, aggs, otherDict, otherAggs, otherLoc, i)
      requires incoming == otherAggs[Slot(e.id, 0)..Slot(e.id as nat + 1, 0)]
      requires |universe| <= 0x1_0000 && otherDict[e.id] in universe && forall key :: key in dict ==> key in universe
      modifies this, entries
      ensures Valid() && (entries == old(entries) || fresh(entries))
      ensures MergedPrefix(dict0, aggs0, dict, aggs, otherDict, otherAggs, otherLoc, i + 1)
      ensures forall key :: key in dict ==> key in universe
    {
      RoomFor(dict, universe, otherDict[e.id]);
      MergeEntry(e, incoming, otherDict[e.id]);
      MergedStep(dict0, aggs0, old(dict), old(aggs), dict, aggs, others, data, otherDict, otherAggs, otherLoc, hash, i);
    }
  }

  /** A known channel needs no room, a new one of the universe finds it. */
  lemma RoomFor(dict: seq<Key>, universe: set<Key>, key: Key)
    requires Distinct(dict) && (forall k :: k in dict ==> k in universe) && key in universe
    ensures key in dict || |dict| < |universe|
  {
    if key !in dict {
      DistinctSize(dict, universe - {key});
    }
  }

  /** A free place gives nothing; a full one describes a channel of the other map. */
  lemma NextGiven(entries: seq<Entry>, data: seq<Byte>, other: seq<Key>, otherAggs: seq<GoStats>, otherLoc: map<nat, nat>,
                  hash: Hash, n: nat, dict: seq<Key>, aggs: seq<GoStats>, dict': seq<Key>, aggs': seq<GoStats>)
    requires Indexes(entries, data, other, otherLoc, hash) && Complete(otherLoc, |other|) && KeysOk(other) && n < |entries|
    requires MergedPrefix(dict, aggs, dict', aggs', other, otherAggs, otherLoc, n)
    ensures entries[n].len == 0 ==> MergedPrefix(dict, aggs, dict', aggs', other, otherAggs, otherLoc, n + 1)
    ensures entries[n].len != 0 ==> EntryOk(entries[n], data, other, hash)
  {
  }
}
