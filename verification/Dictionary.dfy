/** A worker's channel dictionary in the optimized C analyzer: an open-addressing table of
    entries, an arena of copied keys, and the three direct-ID tables, all updated in place. */
module Dictionary {
  import opened ReferenceFold
  import opened Collections
  import opened Cells
  import opened Csv
  import opened Keys
  import opened Probing
  import opened DirectIds
  import opened Tables
  import opened Mph

  const MAP_CAPACITY := 0x4000
  const KEY_ARENA_CAPACITY := 0x10_0000

  /** `offset` is where the entry's key starts in the arena. */
  datatype Entry = Entry(offset: nat, hash: Word32, len: nat, id: nat)

  type Crc = (nat, seq<Byte>) -> Word32

  function Home(hash: Word32): (i: nat)
    ensures i < MAP_CAPACITY
  {
    hash % MAP_CAPACITY
  }

  function Hashes(dict: seq<Key>, crc: Crc): (r: seq<Word32>)
    ensures |r| == |dict|
  {
    seq(|dict|, id requires 0 <= id < |dict| => HashKey(dict[id], crc))
  }

  function Homes(dict: seq<Key>, crc: Crc): (r: seq<nat>)
    ensures |r| == |dict|
  {
    seq(|dict|, id requires 0 <= id < |dict| => Home(HashKey(dict[id], crc)))
  }

  function Ids(entries: seq<Option<Entry>>): (r: Slots)
    ensures |r| == |entries|
  {
    seq(|entries|, i requires 0 <= i < |entries| => match entries[i] case None => None case Some(e) => Some(e.id))
  }

  function KeyBytes(dict: seq<Key>): nat {
    if |dict| == 0 then 0 else KeyBytes(dict[..|dict| - 1]) + |dict[|dict| - 1]|
  }

  /** An entry describes its channel: hash, length, and where its bytes are in the arena. */
  ghost predicate EntryOk(e: Entry, dict: seq<Key>, arena: seq<Byte>, used: nat, crc: Crc) {
    && e.id < |dict| && e.len == |dict[e.id]| && e.hash == HashKey(dict[e.id], crc)
    && e.offset + e.len <= used <= |arena| && arena[e.offset..e.offset + e.len] == dict[e.id]
  }

  /** The table indexes exactly the channels of `dict`, each under its ID. */
  ghost predicate EntriesOk(entries: seq<Option<Entry>>, arena: seq<Byte>, used: nat, dict: seq<Key>, loc: map<nat, nat>,
                            crc: Crc)
  {
    && |entries| == MAP_CAPACITY
    && Stored(arena, used, dict)
    && Distinct(dict)
    && Locates(entries, dict, loc, crc)
    && Described(entries, arena, used, dict, crc)
  }

  predicate Stored(arena: seq<Byte>, used: nat, dict: seq<Key>) {
    |arena| == KEY_ARENA_CAPACITY && used == KeyBytes(dict) <= |arena|
  }

  ghost predicate Locates(entries: seq<Option<Entry>>, dict: seq<Key>, loc: map<nat, nat>, crc: Crc) {
    (forall id :: id in loc <==> 0 <= id < |dict|) && IndexOk(Ids(entries), loc, Homes(dict, crc))
  }

  ghost predicate Described(entries: seq<Option<Entry>>, arena: seq<Byte>, used: nat, dict: seq<Key>, crc: Crc) {
    forall i :: 0 <= i < |entries| && entries[i].Some? ==> EntryOk(entries[i].value, dict, arena, used, crc)
  }

  /** The slots a probe from `home` has passed before i all hold other channels. */
  ghost predicate Passed(entries: seq<Option<Entry>>, dict: seq<Key>, key: Key, home: nat, i: nat) {
    forall j :: 0 <= j < |entries| && Between(home, j, i) ==>
                  entries[j].Some? && entries[j].value.id < |dict| && dict[entries[j].value.id] != key
  }

  /** A probe that meets an empty slot proves the channel unknown. */
  lemma UnknownAtEmpty(entries: seq<Option<Entry>>, arena: seq<Byte>, used: nat, dict: seq<Key>, loc: map<nat, nat>,
                       crc: Crc, key: Key, i: nat)
    requires EntriesOk(entries, arena, used, dict, loc, crc) && i < |entries| && entries[i].None?
    requires Passed(entries, dict, key, Home(HashKey(key, crc)), i)
    ensures key !in dict
  {
    var slots, homes := Ids(entries), Homes(dict, crc);
    if key in dict {
      var id :| 0 <= id < |dict| && dict[id] == key;
      forall j | 0 <= j < |slots| && Between(homes[id], j, i) ensures slots[j] != Some(id) {
        assert entries[j].Some?;
      }
      AbsentAtEmpty(slots, loc, homes, id, i);
    }
  }

  lemma PassedIsChained(entries: seq<Option<Entry>>, dict: seq<Key>, key: Key, home: nat, i: nat)
    requires Passed(entries, dict, key, home, i)
    ensures Chained(Ids(entries), home, i)
  {
  }

  lemma IdsUpdate(entries: seq<Option<Entry>>, i: nat, e: Entry)
    requires i < |entries|
    ensures Ids(entries[i := Some(e)]) == Ids(entries)[i := Some(e.id)]
  {
  }

  lemma HomesSnoc(dict: seq<Key>, key: Key, crc: Crc)
    ensures Homes(dict + [key], crc) == Homes(dict, crc) + [Home(HashKey(key, crc))]
  {
  }

  /** The slots index the longer dictionary. */
  lemma InsertKeepsIndex(entries: seq<Option<Entry>>, dict: seq<Key>, loc: map<nat, nat>, crc: Crc, key: Key, i: nat,
                         e: Entry)
    requires |entries| == MAP_CAPACITY && Locates(entries, dict, loc, crc)
    requires i < |entries| && entries[i].None? && Passed(entries, dict, key, Home(HashKey(key, crc)), i) && e.id == |dict|
    ensures Locates(entries[i := Some(e)], dict + [key], loc[|dict| := i], crc)
  {
    HomesSnoc(dict, key, crc);
    IdsUpdate(entries, i, e);
    PassedIsChained(entries, dict, key, Home(HashKey(key, crc)), i);
    InsertNext(Ids(entries), loc, Homes(dict, crc), Home(HashKey(key, crc)), i);
  }

  /** An entry survives an insertion: its key stays in place in the arena. */
  lemma EntryStays(e: Entry, dict: seq<Key>, arena: seq<Byte>, used: nat, crc: Crc, key: Key, arena': seq<Byte>)
    requires EntryOk(e, dict, arena, used, crc)
    requires |arena'| == |arena| && arena'[..used] == arena[..used] && used + |key| <= |arena|
    ensures EntryOk(e, dict + [key], arena', used + |key|, crc)
  {
    assert arena'[e.offset..e.offset + e.len] == arena'[..used][e.offset..e.offset + e.len];
    assert arena[e.offset..e.offset + e.len] == arena[..used][e.offset..e.offset + e.len];
  }

  lemma NewEntry(dict: seq<Key>, used: nat, crc: Crc, key: Key, arena: seq<Byte>)
    requires used + |key| <= |arena| && arena[used..used + |key|] == key
    ensures EntryOk(Entry(used, HashKey(key, crc), |key|, |dict|), dict + [key], arena, used + |key|, crc)
  {
  }

  lemma DistinctSnoc(dict: seq<Key>, key: Key)
    requires Distinct(dict) && key !in dict
    ensures Distinct(dict + [key])
  {
  }

  lemma StillDescribed(entries: seq<Option<Entry>>, arena: seq<Byte>, used: nat, dict: seq<Key>, crc: Crc, key: Key, i: nat,
                       arena': seq<Byte>)
    requires Described(entries, arena, used, dict, crc) && i < |entries|
    requires |arena'| == |arena| && used + |key| <= |arena| && arena'[..used] == arena[..used]
    requires arena'[used..used + |key|] == key
    ensures Described(entries[i := Some(Entry(used, HashKey(key, crc), |key|, |dict|))], arena', used + |key|, dict + [key], crc)
  {
    NewEntry(dict, used, crc, key, arena');
    forall k | 0 <= k < |entries| && k != i && entries[k].Some?
      ensures EntryOk(entries[k].value, dict + [key], arena', used + |key|, crc)
    {
      EntryStays(entries[k].value, dict, arena, used, crc, key, arena');
    }
  }

  /** The entry of a new channel keeps the table an index of the longer dictionary. */
  lemma InsertKeepsEntries(entries: seq<Option<Entry>>, arena: seq<Byte>, used: nat, dict: seq<Key>, loc: map<nat, nat>,
                           crc: Crc, key: Key, i: nat, arena': seq<Byte>)
    requires EntriesOk(entries, arena, used, dict, loc, crc) && i < |entries| && entries[i].None?
    requires Passed(entries, dict, key, Home(HashKey(key, crc)), i) && key !in dict
    requires |arena'| == |arena| && used + |key| <= |arena| && arena'[..used] == arena[..used]
    requires arena'[used..used + |key|] == key
    ensures EntriesOk(entries[i := Some(Entry(used, HashKey(key, crc), |key|, |dict|))], arena', used + |key|,
                      dict + [key], loc[|dict| := i], crc)
  {
    var e := Entry(used, HashKey(key, crc), |key|, |dict|);
    assert Stored(arena', used + |key|, dict + [key]) by {
      assert (dict + [key])[..|dict|] == dict;
    }
    DistinctSnoc(dict, key);
    InsertKeepsIndex(entries, dict, loc, crc, key, i, e);
    StillDescribed(entries, arena, used, dict, crc, key, i, arena');
  }

  lemma HashesSnoc(dict: seq<Key>, key: Key, crc: Crc)
    ensures Hashes(dict + [key], crc) == Hashes(dict, crc) + [HashKey(key, crc)]
  {
  }

  /** A new channel claims its cell of one direct-ID table. */
  method ClaimCell(table: array<Word16>, which: Which, hash: Word32, id: nat, ghost hashes: seq<Word32>)
    requires TableOk(table[..], which, hashes) && id == |hashes| < MAX_IDS
    modifies table
    ensures TableOk(table[..], which, hashes + [hash])
  {
    var i := Index(which, hash);
    InsertKeepsTable(table[..], which, hashes, hash);
    ghost var before := table[..];
    table[i] := Claimed(table[i], id);
    assert table[..] == before[i := Claimed(before[i], id)];
  }

  /** A free slot exists, so a probe ends. */
  lemma ProbeEnds(entries: seq<Option<Entry>>, arena: seq<Byte>, used: nat, dict: seq<Key>, loc: map<nat, nat>, crc: Crc)
    returns (stop: nat)
    requires EntriesOk(entries, arena, used, dict, loc, crc) && |dict| < MAP_CAPACITY
    ensures stop < |entries| && entries[stop].None?
  {
    LocSize(loc, |dict|);
    stop := SomeSlotEmpty(Ids(entries), loc, Homes(dict, crc));
  }

  /** The comparison of an entry with a key: hash and length first, then the bytes. */
  method Matches(e: Entry, keys: array<Byte>, key: Key, hash: Word32, ghost dict: seq<Key>, ghost used: nat, crc: Crc)
    returns (same: bool)
    requires EntryOk(e, dict, keys[..], used, crc) && hash == HashKey(key, crc)
    ensures same <==> dict[e.id] == key
  {
    if e.hash == hash && e.len == |key| {
      assert keys[..][e.offset..e.offset + e.len] == keys[e.offset..e.offset + e.len];
      KeyEqualMeaning(keys[e.offset..e.offset + e.len], key);
      same := KeyEqual(keys[e.offset..e.offset + e.len], key);
    } else {
      same := false;
    }
  }

  // ---- Indexing the complete dictionary ----------------------------------------------

  ghost function InBucket(hashes: seq<Word32>, seen: set<nat>, b: nat): set<nat> {
    set id | id in seen && id < |hashes| && Bucket(hashes[id]) == b
  }

  lemma {:induction false} InBucketCount(hashes: seq<Word32>, b: nat)
    ensures |InBucket(hashes, AllIds(hashes), b)| == Count(hashes, b)
  {
    if |hashes| > 0 {
      var n := |hashes| - 1;
      InBucketCount(hashes[..n], b);
      var shorter, all := InBucket(hashes[..n], AllIds(hashes[..n]), b), InBucket(hashes, AllIds(hashes), b);
      if Bucket(hashes[n]) == b {
        assert all == shorter + {n};
      } else {
        assert all == shorter;
      }
    }
  }

  lemma SeeOne(hashes: seq<Word32>, seen: set<nat>, id: nat, b: nat)
    requires id < |hashes| && id !in seen
    ensures |InBucket(hashes, seen + {id}, b)| == |InBucket(hashes, seen, b)| + if Bucket(hashes[id]) == b then 1 else 0
  {
    var before, after := InBucket(hashes, seen, b), InBucket(hashes, seen + {id}, b);
    if Bucket(hashes[id]) == b {
      assert after == before + {id};
    } else {
      assert after == before;
    }
  }

  /** What is known after the first i entries. */
  ghost predicate Seen(loc: map<nat, nat>, hs: seq<Word32>, i: nat, seen: set<nat>, hashes: seq<Word32>, counts: seq<nat>) {
    && |hashes| == |hs| && |counts| == BUCKETS
    && (forall id :: id in loc ==> id < |hs|)
    && (forall id :: id in seen <==> id in loc && loc[id] < i)
    && (forall id :: id in seen ==> hashes[id] == hs[id])
    && (forall b :: 0 <= b < BUCKETS ==> counts[b] == |InBucket(hs, seen, b)|)
  }

  /** A full entry is the place of its own ID, an empty one of none. */
  lemma SeenAt(entries: seq<Option<Entry>>, dict: seq<Key>, loc: map<nat, nat>, crc: Crc, i: nat)
    requires Locates(entries, dict, loc, crc) && i < |entries|
    ensures entries[i].Some? ==> entries[i].value.id in loc && loc[entries[i].value.id] == i
    ensures forall id :: id in loc && loc[id] == i ==> entries[i].Some? && entries[i].value.id == id
  {
    var slots := Ids(entries);
    if entries[i].Some? {
      assert slots[i] == Some(entries[i].value.id);
    }
    forall id | id in loc && loc[id] == i ensures entries[i].Some? && entries[i].value.id == id {
      assert slots[i] == Some(id);
    }
  }

  lemma SeeEntry(loc: map<nat, nat>, hs: seq<Word32>, i: nat, seen: set<nat>, hashes: seq<Word32>, counts: seq<nat>,
                 id: nat)
    requires Seen(loc, hs, i, seen, hashes, counts) && id in loc && loc[id] == i
    requires forall o :: o in loc && loc[o] == i ==> o == id
    ensures var b := Bucket(hs[id]);
            Seen(loc, hs, i + 1, seen + {id}, hashes[id := hs[id]], counts[b := counts[b] + 1])
  {
    var counts' := counts[Bucket(hs[id]) := counts[Bucket(hs[id])] + 1];
    forall b | 0 <= b < BUCKETS ensures counts'[b] == |InBucket(hs, seen + {id}, b)| {
      SeeOne(hs, seen, id, b);
    }
  }

  /** Two 16-bit cells of the first direct-ID table read as one 32-bit word. */
  function WordAt(cells: seq<Word16>, b: nat): Word32
    requires 2 * b + 1 < |cells|
  {
    cells[2 * b] as int + 0x1_0000 * (cells[2 * b + 1] as int)
  }

  /** mph_seeds and mph_ids overlay the first direct-ID table. */
  function SeedsIn(cells: seq<Word16>): (r: seq<Word32>)
    requires |cells| == FAST_CAPACITY
    ensures |r| == BUCKETS
  {
    seq(BUCKETS, b requires 0 <= b < BUCKETS => WordAt(cells, b))
  }

  function IdsIn(cells: seq<Word16>): (r: seq<Word16>)
    requires |cells| == FAST_CAPACITY
    ensures |r| == SLOTS
  {
    cells[2 * BUCKETS..2 * BUCKETS + SLOTS]
  }

  /** The two memcpy calls that overlay the tables. */
  method Overlay(cells: array<Word16>, seeds: array<Word32>, ids: array<Word16>)
    requires cells.Length == FAST_CAPACITY && seeds.Length == BUCKETS && ids.Length == SLOTS
    requires cells != ids
    modifies cells
    ensures SeedsIn(cells[..]) == old(seeds[..]) && IdsIn(cells[..]) == ids[..]
  {
    ghost var ss := seeds[..];
    for b := 0 to BUCKETS
      invariant seeds[..] == ss
      invariant forall a :: 0 <= a < b ==> WordAt(cells[..], a) == ss[a]
    {
      var word: int := seeds[b];
      cells[2 * b], cells[2 * b + 1] := word % 0x1_0000, word / 0x1_0000;
    }
    forall j | 0 <= j < SLOTS {
      cells[2 * BUCKETS + j] := ids[j];
    }
  }

  class FlatMap {
    const crc: Crc
    const entries: array<Option<Entry>>
    const keys: array<Byte>
    const fast: array<Word16>
    const fast2: array<Word16>
    const fast3: array<Word16>
    var keyUsed: nat
    var size: nat
    var aggCap: nat
    ghost var dict: seq<Key>
    ghost var loc: map<nat, nat>

    /** The arrays of the dictionary. */
    ghost function Footprint(): set<object> { {entries as object, keys, fast, fast2, fast3} }

    ghost predicate Entered()
      reads this, entries, keys
    {
      EntriesOk(entries[..], keys[..], keyUsed, dict, loc, crc) && size == |dict| <= aggCap <= MAP_CAPACITY
    }

    /** The dictionary while its owner still discovers channels. */
    ghost predicate Valid()
      reads this, entries, keys, fast, fast2, fast3
    {
      && Entered()
      && fast != fast2 && fast != fast3 && fast2 != fast3
      && TableOk(fast[..], First, Hashes(dict, crc))
      && TableOk(fast2[..], Second, Hashes(dict, crc))
      && TableOk(fast3[..], Third, Hashes(dict, crc))
    }

    constructor (crc: Crc)
      ensures Valid() && dict == [] && aggCap == MAP_CAPACITY && this.crc == crc
      ensures fresh(Footprint())
    {
      this.crc := crc;
      entries := new Option<Entry>[MAP_CAPACITY](i => None);
      keys := new Byte[KEY_ARENA_CAPACITY];
      fast := new Word16[FAST_CAPACITY](i => 0);
      fast2 := new Word16[FAST2_CAPACITY](i => 0);
      fast3 := new Word16[FAST3_CAPACITY](i => 0);
      keyUsed, size, aggCap := 0, 0, MAP_CAPACITY;
      dict, loc := [], map[];
    }

    /** map_insert: copies the key, fills the empty entry and claims the direct-ID cells.
        False stands for the two capacity errors. */
    method Insert(i: nat, key: Key, hash: Word32) returns (ok: bool)
      requires Valid() && hash == HashKey(key, crc) && key !in dict && size < MAP_CAPACITY
      requires i < entries.Length && entries[i].None? && Passed(entries[..], dict, key, Home(hash), i)
      modifies this, entries, keys, fast, fast2, fast3
      ensures Valid() && aggCap == old(aggCap)
      ensures ok <==> old(size < aggCap && keyUsed + |key| <= KEY_ARENA_CAPACITY)
      ensures dict == if ok then old(dict) + [key] else old(dict)
    {
      if size == aggCap || keyUsed + |key| > KEY_ARENA_CAPACITY {
        return false;
      }
      EnterKey(i, key, hash);
      HashesSnoc(dict, key, crc);
      ClaimCell(fast, First, hash, size, Hashes(dict, crc));
      ClaimCell(fast2, Second, hash, size, Hashes(dict, crc));
      ClaimCell(fast3, Third, hash, size, Hashes(dict, crc));
      loc := loc[size := i];
      dict := dict + [key];
      size := size + 1;
      ok := true;
    }

    /** The part of map_insert that writes the arena and the entry. */
    method EnterKey(i: nat, key: Key, hash: Word32)
      requires Entered() && hash == HashKey(key, crc) && key !in dict
      requires i < entries.Length && entries[i].None? && Passed(entries[..], dict, key, Home(hash), i)
      requires keyUsed + |key| <= KEY_ARENA_CAPACITY
      modifies this`keyUsed, entries, keys
      ensures EntriesOk(entries[..], keys[..], keyUsed, dict + [key], loc[|dict| := i], crc)
    {
      ghost var before, arena := entries[..], keys[..];
      CopyKey(key);
      InsertKeepsEntries(before, arena, keyUsed, dict, loc, crc, key, i, keys[..]);
      entries[i] := Some(Entry(keyUsed, hash, |key|, size));
      assert entries[..] == before[i := Some(Entry(keyUsed, hash, |key|, size))];
      keyUsed := keyUsed + |key|;
    }

    method CopyKey(key: Key)
      requires keyUsed + |key| <= keys.Length
      modifies keys
      ensures keys[..keyUsed] == old(keys[..keyUsed])
      ensures keys[keyUsed..keyUsed + |key|] == key
    {
      forall j | 0 <= j < |key| {
        keys[keyUsed + j] := key[j];
      }
    }
  
    /** The probe loop: stops at the channel's entry or at the first empty one. */
    method Probe(key: Key, hash: Word32) returns (i: nat)
      requires Entered() && hash == HashKey(key, crc) && (size < MAP_CAPACITY || key in dict)
      ensures i < entries.Length
      ensures key in dict ==> entries[i].Some? && entries[i].value.id < |dict| && dict[entries[i].value.id] == key
      ensures key !in dict ==> entries[i].None? && Passed(entries[..], dict, key, Home(hash), i)
    {
      i := Home(hash);
      ghost var stop := Stop(key);
      while entries[i].Some?
        invariant i < entries.Length
        invariant i == stop || i == Home(hash) || Between(Home(hash), i, stop)
        invariant Passed(entries[..], dict, key, Home(hash), i)
        decreases Distance(i, stop, MAP_CAPACITY)
      {
        assert Described(entries[..], keys[..], keyUsed, dict, crc);
        assert EntryOk(entries[..][i].value, dict, keys[..], keyUsed, crc);
        var same := Matches(entries[i].value, keys, key, hash, dict, keyUsed, crc);
        if same {
          return;
        }
        ProbeStep(Home(hash), i, stop, MAP_CAPACITY);
        i := Next(i, MAP_CAPACITY);
      }
      UnknownAtEmpty(entries[..], keys[..], keyUsed, dict, loc, crc, key, i);
    }

    /** Where a probe for the key stops at the latest. */
    ghost method Stop(key: Key) returns (stop: nat)
      requires Entered() && (size < MAP_CAPACITY || key in dict)
      ensures stop < entries.Length
      ensures entries[stop].Some? ==> entries[stop].value.id < |dict| && dict[entries[stop].value.id] == key
    {
      if key in dict {
        var id :| 0 <= id < |dict| && dict[id] == key;
        stop := loc[id];
        assert Ids(entries[..])[stop] == Some(id);
      } else {
        stop := ProbeEnds(entries[..], keys[..], keyUsed, dict, loc, crc);
      }
    }
  
    /** map_find: the channel's ID, inserting it when it is new; None stands for the two
        capacity errors. */
    method Find(key: Key, hash: Word32) returns (id: Option<nat>)
      requires Valid() && hash == HashKey(key, crc) && (size < MAP_CAPACITY || key in dict)
      modifies this, entries, keys, fast, fast2, fast3
      ensures Valid() && aggCap == old(aggCap)
      ensures id.Some? <==> key in old(dict) || old(size < aggCap && keyUsed + |key| <= KEY_ARENA_CAPACITY)
      ensures dict == if key in old(dict) || id.None? then old(dict) else old(dict) + [key]
      ensures id.Some? ==> id.value < |dict| && dict[id.value] == key
    {
      var i := Probe(key, hash);
      if entries[i].Some? {
        return Some(entries[i].value.id);
      }
      var ok := Insert(i, key, hash);
      id := if ok then Some(size - 1) else None;
    }

    /** map_find_readonly: None stands for the error "published dictionary miss". */
    method FindReadonly(key: Key, hash: Word32) returns (id: Option<nat>)
      requires Entered() && hash == HashKey(key, crc) && (size < MAP_CAPACITY || key in dict)
      ensures id.Some? <==> key in dict
      ensures id.Some? ==> id.value < |dict| && dict[id.value] == key
    {
      var i := Probe(key, hash);
      id := if entries[i].Some? then Some(entries[i].value.id) else None;
    }

    /** map_find_slot3_plus1: once every channel is known the direct-ID tables answer, and the
        exact probe decides only what collides in all three. */
    method FindSlot3(key: Key, hash: Word32) returns (slot3: Option<Word16>)
      requires Valid() && hash == HashKey(key, crc)
      requires size < CONTEST_CHANNELS || (size == CONTEST_CHANNELS && key in dict)
      modifies this, entries, keys, fast, fast2, fast3
      ensures Valid() && aggCap == old(aggCap)
      ensures slot3.Some? <==> key in old(dict) || old(size < aggCap && keyUsed + |key| <= KEY_ARENA_CAPACITY)
      ensures dict == if key in old(dict) || slot3.None? then old(dict) else old(dict) + [key]
      ensures slot3.Some? ==> key in dict && slot3.value == Slot3(IndexOf(dict, key))
    {
      if size == CONTEST_CHANNELS {
        ghost var hashes := Hashes(dict, crc);
        ghost var known := IndexOf(dict, key);
        assert hashes[known] == hash;
        var id := fast[Index(First, hash)];
        KnownChannel(fast[..], First, hashes, known);
        if id == COLLISION {
          id := fast2[Index(Second, hash)];
          KnownChannel(fast2[..], Second, hashes, known);
        }
        if id == COLLISION {
          id := fast3[Index(Third, hash)];
          KnownChannel(fast3[..], Third, hashes, known);
        }
        if id != COLLISION {
          return Some(id);
        }
      }
      var found := Find(key, hash);
      if found.Some? {
        IndexOfAt(dict, found.value);
        slot3 := Some(Slot3(found.value));
      } else {
        slot3 := None;
      }
    }

    // ---- build_mph -------------------------------------------------------------------

    /** The hash of every ID, and the size of every bucket. */
    method CollectHashes() returns (hashes: array<Word32>, counts: array<nat>)
      requires Entered() && size == CONTEST_CHANNELS
      ensures fresh(hashes) && fresh(counts) && counts.Length == BUCKETS
      ensures hashes[..] == Hashes(dict, crc)
      ensures forall b :: 0 <= b < BUCKETS ==> counts[b] == Count(hashes[..], b)
    {
      hashes := new Word32[CONTEST_CHANNELS];
      counts := new nat[BUCKETS](b => 0);
      ghost var hs := Hashes(dict, crc);
      ghost var seen: set<nat> := {};
      for i := 0 to MAP_CAPACITY
        invariant Seen(loc, hs, i, seen, hashes[..], counts[..])
      {
        seen := CollectOne(i, hashes, counts, seen);
      }
      assert seen == AllIds(hs);
      assert hashes[..] == hs;
      forall b | 0 <= b < BUCKETS ensures counts[b] == Count(hs, b) {
        InBucketCount(hs, b);
      }
    }

    method CollectOne(i: nat, hashes: array<Word32>, counts: array<nat>, ghost seen: set<nat>)
      returns (ghost wider: set<nat>)
      requires Entered() && i < MAP_CAPACITY && Seen(loc, Hashes(dict, crc), i, seen, hashes[..], counts[..])
      modifies hashes, counts
      ensures Seen(loc, Hashes(dict, crc), i + 1, wider, hashes[..], counts[..])
    {
      ghost var hs, h, c := Hashes(dict, crc), hashes[..], counts[..];
      if entries[i].Some? {
        var e := entries[i].value;
        assert EntryOk(entries[..][i].value, dict, keys[..], keyUsed, crc);
        SeenAt(entries[..], dict, loc, crc, i);
        SeeEntry(loc, hs, i, seen, h, c, e.id);
        hashes[e.id] := e.hash;
        counts[Bucket(e.hash)] := counts[Bucket(e.hash)] + 1;
        assert hashes[..] == h[e.id := hs[e.id]];
        assert counts[..] == c[Bucket(hs[e.id]) := c[Bucket(hs[e.id])] + 1];
        wider := seen + {e.id};
      } else {
        SeenAt(entries[..], dict, loc, crc, i);
        wider := seen;
      }
    }

    /** The dictionary with the tables of build_mph over its first direct-ID table. */
    ghost predicate Indexed()
      reads this, entries, keys, fast
    {
      && Entered() && fast.Length == FAST_CAPACITY
      && MphOk(Hashes(dict, crc), SeedsIn(fast[..]), IdsIn(fast[..]))
    }

    /** build_mph: succeeds exactly when bucket after bucket finds a multiplier; on failure nothing
        has changed. */
    method BuildMph(qsort: seq<MphBucket> -> seq<MphBucket>) returns (built: bool)
      requires Valid() && size == CONTEST_CHANNELS && Sorts(qsort)
      modifies fast
      ensures built <==> Indexable(Hashes(dict, crc), qsort)
      ensures built ==> Indexed()
      ensures !built ==> Valid() && fast[..] == old(fast[..])
    {
      var hashes, counts := CollectHashes();
      var seeds, ids;
      built, seeds, ids := BuildTables(hashes, counts, qsort);
      if built {
        Overlay(fast, seeds, ids);
        assert IdsIn(fast[..]) == ids[..];
      }
    }

    /** dictionary_find_slot3_plus1: the published lookup of any known channel answers with
        its own ID, whether its slot names it or sends it to the exact probe. */
    method FindPublished(key: Key, hash: Word32) returns (slot3: Option<Word16>)
      requires Indexed() && hash == HashKey(key, crc) && key in dict
      ensures slot3 == Some(Slot3(IndexOf(dict, key)))
    {
      ghost var id := IndexOf(dict, key);
      ghost var hashes := Hashes(dict, crc);
      assert hashes[id] == hash;
      LookupMeaning(hashes, SeedsIn(fast[..]), IdsIn(fast[..]), id);
      var b := Bucket(hash);
      var seed := WordAt(fast[..], b);
      assert seed == SeedsIn(fast[..])[b];
      var mphId := fast[2 * BUCKETS + SlotOf(hash, seed)];
      assert mphId == IdsIn(fast[..])[SlotOf(hash, seed)];
      if mphId != COLLISION {
        return Some(mphId);
      }
      var found := FindReadonly(key, hash);
      IndexOfAt(dict, found.value);
      slot3 := Some(Slot3(found.value));
    }
  }

  // ---- The key arena under the published limits --------------------------------------

  lemma {:induction false} KeyBytesBound(dict: seq<Key>, most: nat)
    requires forall id :: 0 <= id < |dict| ==> |dict[id]| <= most
    ensures KeyBytes(dict) <= |dict| * most
  {
    if |dict| > 0 {
      KeyBytesBound(dict[..|dict| - 1], most);
    }
  }

  /** Under the published limits map_insert never fails: the accumulators and the arena have
      room for every channel. */
  lemma RoomForContest(dict: seq<Key>, key: Key)
    requires |dict| < CONTEST_CHANNELS && |key| <= MAX_CHANNEL_BYTES
    requires forall id :: 0 <= id < |dict| ==> |dict[id]| <= MAX_CHANNEL_BYTES
    ensures |dict| < MAP_CAPACITY && KeyBytes(dict) + |key| <= KEY_ARENA_CAPACITY
  {
    KeyBytesBound(dict, MAX_CHANNEL_BYTES);
  }
}
