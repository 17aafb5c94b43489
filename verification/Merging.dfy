/** The main thread's merge of the workers' maps, on maps that each hold one chunk. */
module Merging {
  import opened ReferenceFold
  import opened Cells
  import opened Tables

  /** Map w holds exactly the groups of chunk w. */
  ghost predicate HoldsChunk(rows: seq<Row>, t: Table) {
    Shaped(t) && forall channel: Key, month: nat :: Lookup(t, channel, month) == At(rows, channel, month)
  }

  ghost predicate HoldChunks(chunks: seq<seq<Row>>, maps: seq<Table>) {
    |maps| == |chunks| && forall w :: 0 <= w < |maps| ==> HoldsChunk(chunks[w], maps[w])
  }

  ghost predicate GroupsFit(chunks: seq<seq<Row>>) {
    forall channel: Key, month: nat :: Fits(At(Flatten(chunks), channel, month))
  }

  ghost predicate SameIds(maps: seq<Table>, dict: seq<Key>) {
    forall w :: 0 <= w < |maps| ==> maps[w].dict == dict && |maps[w].cells| == MONTHS * |dict|
  }

  /** The owner's map after merging the maps below n, other than its own, by position. */
  ghost function MergedIds(maps: seq<Table>, owner: nat, n: nat): (t: Table)
    requires owner < |maps| && n <= |maps| && SameIds(maps, maps[owner].dict)
    ensures t.dict == maps[owner].dict && |t.cells| == MONTHS * |t.dict|
  {
    if n == 0 then maps[owner]
    else if n - 1 == owner then MergedIds(maps, owner, n - 1)
    else MergeIds(MergedIds(maps, owner, n - 1), maps[n - 1])
  }

  ghost predicate Orders(maps: seq<Table>, orders: seq<seq<nat>>) {
    |orders| == |maps| && forall w :: 0 <= w < |orders| ==> Visits(orders[w], |maps[w].dict|)
  }

  /** The first map after merging maps 1 to n-1 by channel, each in the order its hash table
      yields its channels. */
  ghost function MergedByKey(maps: seq<Table>, orders: seq<seq<nat>>, n: nat): (t: Table)
    requires Orders(maps, orders) && 1 <= n <= |maps| && forall w :: 0 <= w < |maps| ==> Shaped(maps[w])
    ensures |t.cells| == MONTHS * |t.dict|
  {
    assert Shaped(maps[0]) && Shaped(maps[n - 1]) && Visits(orders[n - 1], |maps[n - 1].dict|);
    if n == 1 then maps[0] else MergeByKey(MergedByKey(maps, orders, n - 1), maps[n - 1], orders[n - 1])
  }

  // ---- Sums over workers -------------------------------------------------------------

  /** The rows of the chunks below n, without the chunk of `owner`. */
  function Others(chunks: seq<seq<Row>>, owner: nat, n: nat, channel: Key, month: nat): Stat
    requires n <= |chunks|
  {
    if n == 0 then None
    else Merge(Others(chunks, owner, n - 1, channel, month),
               if n - 1 == owner then None else At(chunks[n - 1], channel, month))
  }

  lemma {:induction false} FlattenStep(chunks: seq<seq<Row>>, n: nat, channel: Key, month: nat)
    requires n < |chunks|
    ensures At(Flatten(chunks[..n + 1]), channel, month) ==
            Merge(At(Flatten(chunks[..n]), channel, month), At(chunks[n], channel, month))
  {
    assert chunks[..n + 1][..n] == chunks[..n];
    AtConcat(Flatten(chunks[..n]), chunks[n], channel, month);
  }

  /** Merging in the owner's order gives the same groups as merging in file order. */
  lemma {:induction false} OthersSum(chunks: seq<seq<Row>>, owner: nat, n: nat, channel: Key, month: nat)
    requires owner < |chunks| && n <= |chunks|
    ensures n <= owner ==> Others(chunks, owner, n, channel, month) == At(Flatten(chunks[..n]), channel, month)
    ensures n > owner ==> Merge(At(chunks[owner], channel, month), Others(chunks, owner, n, channel, month)) ==
                          At(Flatten(chunks[..n]), channel, month)
  {
    if n > 0 {
      OthersSum(chunks, owner, n - 1, channel, month);
      FlattenStep(chunks, n - 1, channel, month);
      var rest, last := Others(chunks, owner, n - 1, channel, month), At(chunks[n - 1], channel, month);
      MergeLaws(rest, last, None);
      MergeLaws(At(chunks[owner], channel, month), rest, last);
    }
  }

  lemma {:induction false} OthersFit(chunks: seq<seq<Row>>, owner: nat, n: nat, channel: Key, month: nat)
    requires owner < |chunks| && n <= |chunks| && Fits(At(Flatten(chunks), channel, month))
    ensures Fits(Merge(At(chunks[owner], channel, month), Others(chunks, owner, n, channel, month)))
    decreases |chunks| - n
  {
    if n == |chunks| {
      OthersSum(chunks, owner, n, channel, month);
      assert chunks[..n] == chunks;
    } else {
      OthersFit(chunks, owner, n + 1, channel, month);
      var own, rest := At(chunks[owner], channel, month), Others(chunks, owner, n, channel, month);
      var last := if n == owner then None else At(chunks[n], channel, month);
      MergeLaws(own, rest, last);
      FitsPart(Merge(own, rest), last);
    }
  }

  lemma {:induction false} PrefixFits(chunks: seq<seq<Row>>, n: nat, channel: Key, month: nat)
    requires n <= |chunks| && Fits(At(Flatten(chunks), channel, month))
    ensures Fits(At(Flatten(chunks[..n]), channel, month))
    decreases |chunks| - n
  {
    if n == |chunks| {
      assert chunks[..n] == chunks;
    } else {
      PrefixFits(chunks, n + 1, channel, month);
      FlattenStep(chunks, n, channel, month);
      FitsPart(At(Flatten(chunks[..n]), channel, month), At(chunks[n], channel, month));
    }
  }

  // ---- What the merges yield ---------------------------------------------------------

  lemma MergeIdsStep(chunks: seq<seq<Row>>, owner: nat, n: nat, dst: Table, src: Table, channel: Key, month: nat)
    requires owner < |chunks| && n < |chunks| && n != owner && GroupsFit(chunks)
    requires Shaped(dst) && HoldsChunk(chunks[n], src) && dst.dict == src.dict
    requires forall k: Key, m: nat :: Lookup(dst, k, m) == Merge(At(chunks[owner], k, m), Others(chunks, owner, n, k, m))
    ensures Shaped(MergeIds(dst, src))
    ensures Lookup(MergeIds(dst, src), channel, month) ==
            Merge(At(chunks[owner], channel, month), Others(chunks, owner, n + 1, channel, month))
  {
    forall i | 0 <= i < |dst.cells| ensures Fits(Merge(Value(dst.cells[i]), Value(src.cells[i]))) {
      var k, m := dst.dict[i / MONTHS], i % MONTHS;
      IndexOfAt(dst.dict, i / MONTHS);
      assert i == Slot(i / MONTHS, m);
      assert Lookup(dst, k, m) == Merge(At(chunks[owner], k, m), Others(chunks, owner, n, k, m));
      assert Lookup(src, k, m) == At(chunks[n], k, m);
      OthersFit(chunks, owner, n + 1, k, m);
      MergeLaws(At(chunks[owner], k, m), Others(chunks, owner, n, k, m), At(chunks[n], k, m));
    }
    MergeIdsGroups(dst, src, channel, month);
    MergeLaws(At(chunks[owner], channel, month), Others(chunks, owner, n, channel, month),
              At(chunks[n], channel, month));
  }

  lemma {:induction false} MergedIdsGroups(chunks: seq<seq<Row>>, maps: seq<Table>, owner: nat, n: nat)
    requires HoldChunks(chunks, maps) && GroupsFit(chunks)
    requires owner < |maps| && n <= |maps| && SameIds(maps, maps[owner].dict)
    ensures Shaped(MergedIds(maps, owner, n))
    ensures forall channel: Key, month: nat :: Lookup(MergedIds(maps, owner, n), channel, month) ==
              Merge(At(chunks[owner], channel, month), Others(chunks, owner, n, channel, month))
  {
    assert HoldsChunk(chunks[owner], maps[owner]);
    if n > 0 {
      MergedIdsGroups(chunks, maps, owner, n - 1);
      if n - 1 != owner {
        assert HoldsChunk(chunks[n - 1], maps[n - 1]);
        forall channel: Key, month: nat
          ensures Shaped(MergedIds(maps, owner, n))
          ensures Lookup(MergedIds(maps, owner, n), channel, month) ==
                  Merge(At(chunks[owner], channel, month), Others(chunks, owner, n, channel, month))
        {
          MergeIdsStep(chunks, owner, n - 1, MergedIds(maps, owner, n - 1), maps[n - 1], channel, month);
        }
        MergeIdsStep(chunks, owner, n - 1, MergedIds(maps, owner, n - 1), maps[n - 1], [], 0);
      }
    }
  }

  lemma MergeByKeyStep(chunks: seq<seq<Row>>, n: nat, dst: Table, src: Table, order: seq<nat>)
    requires n < |chunks| && GroupsFit(chunks) && Visits(order, |src.dict|)
    requires HoldsChunk(Flatten(chunks[..n]), dst) && HoldsChunk(chunks[n], src)
    ensures HoldsChunk(Flatten(chunks[..n + 1]), MergeByKey(dst, src, order))
  {
    forall k: Key, m: nat ensures Fits(Merge(Lookup(dst, k, m), Lookup(src, k, m))) {
      FlattenStep(chunks, n, k, m);
      PrefixFits(chunks, n + 1, k, m);
    }
    MergeByKeyGroups(dst, src, order, [], 0);
    forall k: Key, m: nat
      ensures Lookup(MergeByKey(dst, src, order), k, m) == At(Flatten(chunks[..n + 1]), k, m)
    {
      MergeByKeyGroups(dst, src, order, k, m);
      FlattenStep(chunks, n, k, m);
    }
  }

  lemma {:induction false} MergedByKeyGroups(chunks: seq<seq<Row>>, maps: seq<Table>, orders: seq<seq<nat>>, n: nat)
    requires HoldChunks(chunks, maps) && GroupsFit(chunks) && Orders(maps, orders) && 1 <= n <= |maps|
    ensures HoldsChunk(Flatten(chunks[..n]), MergedByKey(maps, orders, n))
  {
    assert HoldsChunk(chunks[n - 1], maps[n - 1]);
    if n == 1 {
      assert chunks[..1][..0] == [];
      assert Flatten(chunks[..1]) == chunks[0];
    } else {
      MergedByKeyGroups(chunks, maps, orders, n - 1);
      MergeByKeyStep(chunks, n - 1, MergedByKey(maps, orders, n - 1), maps[n - 1], orders[n - 1]);
    }
  }

  /** Merging by position in the owner's order yields the groups of the whole file. */
  lemma MergeByIdsIsComplete(chunks: seq<seq<Row>>, maps: seq<Table>, owner: nat)
    requires HoldChunks(chunks, maps) && GroupsFit(chunks) && owner < |maps| && SameIds(maps, maps[owner].dict)
    ensures HoldsChunk(Flatten(chunks), MergedIds(maps, owner, |maps|))
  {
    MergedIdsGroups(chunks, maps, owner, |maps|);
    assert chunks[..|chunks|] == chunks;
    forall k: Key, m: nat
      ensures Lookup(MergedIds(maps, owner, |maps|), k, m) == At(Flatten(chunks), k, m)
    {
      OthersSum(chunks, owner, |maps|, k, m);
    }
  }

  /** So does merging by channel, whatever the hash tables' orders. */
  lemma MergeByKeyIsComplete(chunks: seq<seq<Row>>, maps: seq<Table>, orders: seq<seq<nat>>)
    requires HoldChunks(chunks, maps) && GroupsFit(chunks) && Orders(maps, orders) && |maps| >= 1
    ensures HoldsChunk(Flatten(chunks), MergedByKey(maps, orders, |maps|))
  {
    MergedByKeyGroups(chunks, maps, orders, |maps|);
    assert chunks[..|chunks|] == chunks;
  }
}
