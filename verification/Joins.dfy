/** The main thread after all workers have finished: one worker's result is merged into another's,
    by position under a published dictionary and by channel otherwise. */
module Joins {
  import opened ReferenceFold
  import opened Collections
  import opened Cells
  import opened Tables
  import opened Dictionary
  import opened Accumulators
  import opened Merging
  import opened Discovery
  import opened Merges
  import opened Worker
  import Publication

  /** Group by group, both parts together. */
  lemma MergedByIds(a: seq<Row>, b: seq<Row>, dst: Table, src: Table)
    requires HoldsChunk(a, dst) && HoldsChunk(b, src) && dst.dict == src.dict && Publication.AlwaysFits(a + b)
    ensures HoldsChunk(a + b, MergeIds(dst, src))
  {
    forall i | 0 <= i < |dst.cells| ensures Fits(Merge(Value(dst.cells[i]), Value(src.cells[i]))) {
      var channel, month := dst.dict[i / MONTHS], i % MONTHS;
      IndexOfAt(dst.dict, i / MONTHS);
      assert i == Slot(i / MONTHS, month);
      assert Lookup(dst, channel, month) == At(a, channel, month) && Lookup(src, channel, month) == At(b, channel, month);
      AtConcat(a, b, channel, month);
    }
    forall channel: Key, month: nat
      ensures Shaped(MergeIds(dst, src)) && Lookup(MergeIds(dst, src), channel, month) == At(a + b, channel, month)
    {
      MergeIdsGroups(dst, src, channel, month);
      AtConcat(a, b, channel, month);
    }
    MergeIdsGroups(dst, src, [], 0);
  }

  /** map_merge_ids on two workers' results under one published dictionary. */
  method JoinByIds(dst: Aggregates, src: Aggregates, channels: nat, ghost dict: seq<Key>, ghost a: seq<Row>,
                   ghost b: seq<Row>)
    requires Closed(dst, dict, a) && Closed(src, dict, b) && channels == |dict| && Publication.AlwaysFits(a + b)
    requires dst != src && dst.aggs != src.aggs && (src.wide != null ==> dst.wide != src.wide)
    modifies dst, dst.aggs, dst.wide
    ensures Closed(dst, dict, a + b) && Closed(src, dict, b)
    ensures dst.wide == old(dst.wide) || fresh(dst.wide)
  {
    MergedByIds(a, b, Table(dict, dst.Cells()), Table(dict, src.Cells()));
    MergeByIds(dst, src, channels);
  }

  /** The results of other workers under the same dictionary, none sharing memory with `dst`. */
  ghost predicate Results(dst: Aggregates, others: seq<Aggregates>, dict: seq<Key>, parts: seq<seq<Row>>)
    reads dst, set w | 0 <= w < |others| :: others[w]
    reads set w | 0 <= w < |others| :: others[w].aggs, set w | 0 <= w < |others| :: others[w].wide
  {
    |parts| == |others| &&
    forall w :: 0 <= w < |others| ==>
                  others[w] != dst && others[w].aggs != dst.aggs && Closed(others[w], dict, parts[w]) &&
                  (others[w].wide != null ==> others[w].wide != dst.wide)
  }

  lemma {:induction false} PartsFit(first: seq<Row>, parts: seq<seq<Row>>, n: nat)
    requires Publication.AlwaysFits(first + Flatten(parts)) && n <= |parts|
    ensures Publication.AlwaysFits(first + Flatten(parts[..n]))
  {
    if n == |parts| {
      assert parts[..n] == parts;
    } else {
      var front, last := parts[..|parts| - 1], parts[|parts| - 1];
      assert (first + Flatten(front)) + last == first + Flatten(parts);
      PartFits(first + Flatten(parts), first + Flatten(front), last);
      PartsFit(first, front, n);
      assert front[..n] == parts[..n];
    }
  }

  lemma NextPart(first: seq<Row>, parts: seq<seq<Row>>, n: nat)
    requires n < |parts|
    ensures first + Flatten(parts[..n + 1]) == (first + Flatten(parts[..n])) + parts[n]
  {
    assert parts[..n + 1][..n] == parts[..n];
  }

  /** The main thread's loop under a published dictionary. */
  method JoinAllByIds(dst: Aggregates, others: seq<Aggregates>, channels: nat, ghost dict: seq<Key>, ghost first: seq<Row>,
                      ghost parts: seq<seq<Row>>)
    requires Closed(dst, dict, first) && Results(dst, others, dict, parts) && channels == |dict|
    requires Publication.AlwaysFits(first + Flatten(parts))
    modifies dst, dst.aggs, dst.wide
    ensures Closed(dst, dict, first + Flatten(parts))
  {
    assert first + Flatten(parts[..0]) == first;
    for w := 0 to |others|
      invariant Closed(dst, dict, first + Flatten(parts[..w])) && Results(dst, others, dict, parts)
      invariant dst.wide == old(dst.wide) || fresh(dst.wide)
    {
      NextPart(first, parts, w);
      PartsFit(first, parts, w + 1);
      JoinByIds(dst, others[w], channels, dict, first + Flatten(parts[..w]), parts[w]);
    }
    assert parts[..|others|] == parts;
  }

  /** Group by group, both parts together, whatever the order of the source's hash table. */
  lemma MergedByKey(a: seq<Row>, b: seq<Row>, t: Table, other: Table, entries: seq<Option<Entry>>, loc: map<nat, nat>,
                    crc: Crc)
    requires HoldsChunk(a, t) && HoldsChunk(b, other) && Publication.AlwaysFits(a + b)
    requires Locates(entries, other.dict, loc, crc) && IdsBelow(entries, |other.dict|)
    ensures HoldsChunk(a + b, MergedTo(t, other, entries, |entries|))
  {
    forall channel: Key, month: nat ensures Fits(Merge(Lookup(t, channel, month), Lookup(other, channel, month))) {
      AtConcat(a, b, channel, month);
    }
    forall channel: Key, month: nat
      ensures Shaped(MergedTo(t, other, entries, |entries|))
      ensures Lookup(MergedTo(t, other, entries, |entries|), channel, month) == At(a + b, channel, month)
    {
      MergedGroups(t, other, entries, loc, crc, channel, month);
      AtConcat(a, b, channel, month);
    }
    MergedGroups(t, other, entries, loc, crc, [], 0);
  }

  /** What a map brings to the merge: the rows its entries and accumulators stand for.  The lookup
      tables are not needed any more. */
  ghost predicate Brings(m: FlatMap, own: Aggregates, rows: seq<Row>, universe: set<Key>)
    reads m, m.entries, m.keys, own, own.aggs, own.wide
  {
    Brought(m, own).Some? && HoldsChunk(rows, Brought(m, own).value) && Drawn(m.dict, universe)
  }

  ghost function Brought(m: FlatMap, own: Aggregates): (t: Option<Table>)
    reads m, m.entries, m.keys, own, own.aggs, own.wide
    ensures t.Some? ==> m.Entered() && t.value.dict == m.dict && Carries(own, t.value)
  {
    if m.Entered() && |m.entries[..]| == MAP_CAPACITY && own.Ok() && MONTHS * |m.dict| <= own.aggs.Length
    then Some(Used(m.dict, own.Cells()))
    else None
  }

  lemma KeptBrings(m: FlatMap, own: Aggregates, rows: seq<Row>, universe: set<Key>)
    requires Kept(m, own, rows, universe).Some?
    ensures Brings(m, own, rows, universe)
  {
    assert InMemory(m, own).value == Used(m.dict, own.Cells());
  }

  /** Nothing written to one map touches the entries of the other. */
  ghost predicate Disjoint(map_: FlatMap, dst: Aggregates, m: FlatMap, own: Aggregates) {
    && m != map_ && m.entries != map_.entries && m.keys != map_.keys && m.crc == map_.crc
    && own != dst && own.aggs != dst.aggs
  }

  ghost predicate WideApart(dst: Aggregates, own: Aggregates)
    reads dst, own
  {
    own.wide != null ==> own.wide != dst.wide
  }

  /** map_merge on two workers that kept their own maps. */
  method JoinByKey(map_: FlatMap, dst: Aggregates, srcMap: FlatMap, src: Aggregates, ghost a: seq<Row>,
                   ghost b: seq<Row>, ghost universe: set<Key>)
    requires Kept(map_, dst, a, universe).Some? && Brings(srcMap, src, b, universe) && Promised(a + b, universe)
    requires Disjoint(map_, dst, srcMap, src) && WideApart(dst, src)
    modifies map_, map_.entries, map_.keys, map_.fast, map_.fast2, map_.fast3, dst, dst.aggs, dst.wide
    ensures Kept(map_, dst, a + b, universe).Some?
    ensures dst.wide == old(dst.wide) || fresh(dst.wide)
  {
    ghost var t, other := InMemory(map_, dst).value, Brought(srcMap, src).value;
    MergedByKey(a, b, t, other, srcMap.entries[..], srcMap.loc, srcMap.crc);
    MergeMaps(map_, dst, srcMap, src, t, other, universe);
  }

  /** The maps that are still to be merged, each with what it brings. */
  ghost predicate Waiting(maps: seq<FlatMap>, others: seq<Aggregates>, tables: seq<Table>)
    reads set w | 0 <= w < |others| :: others[w]
    reads set w | 0 <= w < |others| :: others[w].aggs, set w | 0 <= w < |others| :: others[w].wide
    reads set w | 0 <= w < |maps| :: maps[w], set w | 0 <= w < |maps| :: maps[w].entries
    reads set w | 0 <= w < |maps| :: maps[w].keys
  {
    |tables| == |others| == |maps| && forall w :: 0 <= w < |maps| ==> Brought(maps[w], others[w]) == Some(tables[w])
  }

  ghost predicate AllDisjoint(map_: FlatMap, dst: Aggregates, maps: seq<FlatMap>, others: seq<Aggregates>) {
    |others| == |maps| && forall w :: 0 <= w < |maps| ==> Disjoint(map_, dst, maps[w], others[w])
  }

  ghost predicate AllWideApart(dst: Aggregates, others: seq<Aggregates>)
    reads dst, set w | 0 <= w < |others| :: others[w]
  {
    forall w :: 0 <= w < |others| ==> WideApart(dst, others[w])
  }

  ghost predicate Carried(parts: seq<seq<Row>>, tables: seq<Table>, universe: set<Key>) {
    |parts| == |tables| && forall w :: 0 <= w < |parts| ==> HoldsChunk(parts[w], tables[w]) && Drawn(tables[w].dict, universe)
  }

  lemma BringsNth(map_: FlatMap, dst: Aggregates, maps: seq<FlatMap>, others: seq<Aggregates>, parts: seq<seq<Row>>,
                  tables: seq<Table>, universe: set<Key>, w: nat)
    requires Waiting(maps, others, tables) && Carried(parts, tables, universe) && AllDisjoint(map_, dst, maps, others)
    requires AllWideApart(dst, others) && w < |maps|
    ensures Brings(maps[w], others[w], parts[w], universe)
    ensures Disjoint(map_, dst, maps[w], others[w]) && WideApart(dst, others[w])
  {
  }

  /** What a map brings is this table, and holds these rows. */
  ghost predicate BringsTable(m: FlatMap, own: Aggregates, t: Table, rows: seq<Row>, universe: set<Key>)
    reads m, m.entries, m.keys, own, own.aggs, own.wide
  {
    Brought(m, own) == Some(t) && HoldsChunk(rows, t) && Drawn(t.dict, universe)
  }

  /** Workers that kept their own maps wait with what they have counted. */
  lemma KeptWaits(m: FlatMap, own: Aggregates, rows: seq<Row>, universe: set<Key>) returns (t: Table)
    requires Kept(m, own, rows, universe).Some?
    ensures BringsTable(m, own, t, rows, universe)
  {
    KeptBrings(m, own, rows, universe);
    t := Brought(m, own).value;
  }

  /** One merge leaves what the others bring. */
  method JoinBeside(map_: FlatMap, dst: Aggregates, srcMap: FlatMap, src: Aggregates, ghost a: seq<Row>,
                    ghost b: seq<Row>, ghost universe: set<Key>, ghost maps: seq<FlatMap>, ghost others: seq<Aggregates>,
                    ghost tables: seq<Table>)
    requires Kept(map_, dst, a, universe).Some? && Brings(srcMap, src, b, universe) && Promised(a + b, universe)
    requires Disjoint(map_, dst, srcMap, src) && WideApart(dst, src)
    requires AllDisjoint(map_, dst, maps, others) && AllWideApart(dst, others) && Waiting(maps, others, tables)
    modifies map_, map_.entries, map_.keys, map_.fast, map_.fast2, map_.fast3, dst, dst.aggs, dst.wide
    ensures Kept(map_, dst, a + b, universe).Some?
    ensures dst.wide == old(dst.wide) || fresh(dst.wide)
    ensures Waiting(maps, others, tables)
  {
    JoinByKey(map_, dst, srcMap, src, a, b, universe);
  }

  /** Nor does it share a side table with them. */
  method JoinApart(map_: FlatMap, dst: Aggregates, srcMap: FlatMap, src: Aggregates, ghost a: seq<Row>,
                   ghost b: seq<Row>, ghost universe: set<Key>, ghost maps: seq<FlatMap>, ghost others: seq<Aggregates>,
                   ghost tables: seq<Table>)
    requires Kept(map_, dst, a, universe).Some? && Brings(srcMap, src, b, universe) && Promised(a + b, universe)
    requires Disjoint(map_, dst, srcMap, src) && WideApart(dst, src)
    requires AllDisjoint(map_, dst, maps, others) && AllWideApart(dst, others) && Waiting(maps, others, tables)
    modifies map_, map_.entries, map_.keys, map_.fast, map_.fast2, map_.fast3, dst, dst.aggs, dst.wide
    ensures Kept(map_, dst, a + b, universe).Some?
    ensures dst.wide == old(dst.wide) || fresh(dst.wide)
    ensures Waiting(maps, others, tables) && AllWideApart(dst, others)
  {
    JoinBeside(map_, dst, srcMap, src, a, b, universe, maps, others, tables);
  }

  /** One turn of the loop. */
  method JoinNth(map_: FlatMap, dst: Aggregates, maps: seq<FlatMap>, others: seq<Aggregates>, w: nat,
                 ghost a: seq<Row>, ghost parts: seq<seq<Row>>, ghost tables: seq<Table>, ghost universe: set<Key>)
    requires w < |maps| && AllDisjoint(map_, dst, maps, others) && Carried(parts, tables, universe)
    requires AllWideApart(dst, others) && Waiting(maps, others, tables)
    requires Kept(map_, dst, a, universe).Some? && Promised(a + parts[w], universe)
    modifies map_, map_.entries, map_.keys, map_.fast, map_.fast2, map_.fast3, dst, dst.aggs, dst.wide
    ensures Kept(map_, dst, a + parts[w], universe).Some?
    ensures dst.wide == old(dst.wide) || fresh(dst.wide)
    ensures AllWideApart(dst, others) && Waiting(maps, others, tables)
  {
    BringsNth(map_, dst, maps, others, parts, tables, universe, w);
    JoinApart(map_, dst, maps[w], others[w], a, parts[w], universe, maps, others, tables);
  }

  /** The main thread's loop when nothing was published. */
  method JoinAllByKey(map_: FlatMap, dst: Aggregates, maps: seq<FlatMap>, others: seq<Aggregates>, ghost first: seq<Row>,
                      ghost parts: seq<seq<Row>>, ghost tables: seq<Table>, ghost universe: set<Key>)
    requires Kept(map_, dst, first, universe).Some? && AllDisjoint(map_, dst, maps, others) && AllWideApart(dst, others)
    requires Waiting(maps, others, tables) && Carried(parts, tables, universe)
    requires Promised(first + Flatten(parts), universe)
    modifies map_, map_.entries, map_.keys, map_.fast, map_.fast2, map_.fast3, dst, dst.aggs, dst.wide
    ensures Kept(map_, dst, first + Flatten(parts), universe).Some?
  {
    assert first + Flatten(parts[..0]) == first;
    for w := 0 to |others|
      invariant Kept(map_, dst, first + Flatten(parts[..w]), universe).Some?
      invariant AllWideApart(dst, others) && Waiting(maps, others, tables)
      invariant dst.wide == old(dst.wide) || fresh(dst.wide)
    {
      NextPart(first, parts, w);
      PartsFit(first, parts, w + 1);
      JoinNth(map_, dst, maps, others, w, first + Flatten(parts[..w]), parts, tables, universe);
    }
    assert parts[..|others|] == parts;
  }
}
