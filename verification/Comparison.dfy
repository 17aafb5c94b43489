/** The contest's check of an output file: loaded records compared with the expected ones, and
    why two correct analyzers always pass it, whatever order they print channels in. */
module Comparison {
  import opened ReferenceFold
  import opened Collections
  import opened Cells
  import opened Tables
  import opened Merging
  import opened Loader
  import opened Records

  type Text = seq<Byte>

  datatype Verdict = Same | Unexpected(key: Text) | Mismatch(key: Text) | Missing(key: Text)

  /** The keys of a map in insertion order. */
  predicate Enumerates(keys: seq<Text>, records: map<Text, Text>) {
    (forall key :: key in keys ==> key in records) && forall key :: key in records ==> key in keys
  }

  predicate Expected(key: Text, actual: map<Text, Text>, expected: map<Text, Text>)
    requires key in actual
  {
    key in expected && expected[key] == actual[key]
  }

  /** compareRecords: equal maps and nothing else pass; an error names the first offending key, and the
      first missing one only when every actual record is right. */
  method CompareRecords(actualKeys: seq<Text>, actual: map<Text, Text>, expectedKeys: seq<Text>, expected: map<Text, Text>)
    returns (v: Verdict)
    requires Enumerates(actualKeys, actual) && Enumerates(expectedKeys, expected)
    ensures v == Same <==> actual == expected
    ensures v.Unexpected? || v.Mismatch? ==>
              exists i :: 0 <= i < |actualKeys| && actualKeys[i] == v.key && !Expected(v.key, actual, expected) &&
                (v.Unexpected? <==> v.key !in expected) &&
                forall j :: 0 <= j < i ==> Expected(actualKeys[j], actual, expected)
    ensures v.Missing? ==>
              && (forall key :: key in actual ==> Expected(key, actual, expected))
              && exists i :: 0 <= i < |expectedKeys| && expectedKeys[i] == v.key && v.key !in actual &&
                   forall j :: 0 <= j < i ==> expectedKeys[j] in actual
  {
    for i := 0 to |actualKeys|
      invariant forall j :: 0 <= j < i ==> Expected(actualKeys[j], actual, expected)
    {
      var key := actualKeys[i];
      if key !in expected {
        return Unexpected(key);
      }
      if expected[key] != actual[key] {
        return Mismatch(key);
      }
    }
    assert forall key :: key in actual ==> Expected(key, actual, expected);
    for i := 0 to |expectedKeys|
      invariant forall j :: 0 <= j < i ==> expectedKeys[j] in actual
    {
      if expectedKeys[i] !in actual {
        return Missing(expectedKeys[i]);
      }
    }
    assert actual.Keys == expected.Keys;
    v := Same;
  }

  // ---- What correct analyzers print --------------------------------------------------

  /** The file of a map whose channels are printed in the given order, loaded again. */
  ghost function LoadedFile(g: Groups, order: seq<nat>): Loaded
    requires Writable(g) && Visits(order, |g.dict|)
  {
    LoadAll(SplitLines(TextOf(PairsOf(Printed(g, order, MONTHS * |order|)))), map[])
  }

  /** The map holds exactly the groups of these rows. */
  ghost predicate HoldsGroups(rows: seq<Row>, g: Groups) {
    && Distinct(g.dict) && |g.stats| == MONTHS * |g.dict|
    && (forall id: nat, month: nat :: id < |g.dict| && month < MONTHS ==>
                                        g.stats[Slot(id, month)] == At(rows, g.dict[id], month))
    && forall channel: Key, month: nat :: channel !in g.dict || month >= MONTHS ==> At(rows, channel, month) == None
  }

  lemma TableGroups(rows: seq<Row>, t: Table)
    requires HoldsChunk(rows, t)
    ensures HoldsGroups(rows, GroupsOf(t))
  {
    var g := GroupsOf(t);
    forall id: nat, month: nat | id < |g.dict| && month < MONTHS
      ensures g.stats[Slot(id, month)] == At(rows, g.dict[id], month)
    {
      IndexOfAt(t.dict, id);
      assert Lookup(t, t.dict[id], month) == At(rows, t.dict[id], month);
    }
    forall channel: Key, month: nat | channel !in g.dict || month >= MONTHS ensures At(rows, channel, month) == None {
      assert Lookup(t, channel, month) == At(rows, channel, month);
    }
  }

  /** Rows that an analyzer can print: short clean channels, lengths of at least one, group totals in
      32 bits. */
  ghost predicate PrintableRows(rows: seq<Row>) {
    && (forall i :: 0 <= i < |rows| ==> PrintableRow(rows[i]))
    && forall channel: Key, month: nat :: Fits(At(rows, channel, month))
  }

  predicate PrintableRow(r: Row) {
    0 < |r.channel| && |r.channel| + 96 <= BUFFER && CleanChannel(r.channel) && r.length >= 1
  }

  lemma {:induction false} GroupFromRow(rows: seq<Row>, channel: Key, month: nat)
    requires forall i :: 0 <= i < |rows| ==> PrintableRow(rows[i])
    ensures var stat := At(rows, channel, month);
            stat.Some? ==>
              && 0 < |channel| && |channel| + 96 <= BUFFER && CleanChannel(channel)
              && 1 <= stat.value.count <= stat.value.total
              && stat.value.min <= stat.value.total && stat.value.max <= stat.value.total
  {
    if |rows| > 0 {
      GroupFromRow(rows[..|rows| - 1], channel, month);
      assert PrintableRow(rows[|rows| - 1]);
    }
  }

  /** A map of printable rows can be written. */
  lemma MapIsWritable(rows: seq<Row>, g: Groups)
    requires HoldsGroups(rows, g) && PrintableRows(rows)
    ensures Writable(g)
  {
    forall id: nat, month: nat | id < |g.dict| && month < MONTHS
      ensures GroupOk(g.dict[id], month, g.stats[Slot(id, month)])
    {
      GroupFromRow(rows, g.dict[id], month);
      assert Fits(At(rows, g.dict[id], month));
    }
  }

  /** The group's record says what its rows are, when it has any. */
  ghost predicate Recorded(rows: seq<Row>, records: map<Text, Text>, channel: Key, month: nat) {
    var stat := At(rows, channel, month);
    stat.Some? ==> exists key :: key in records && KeySays(key, channel, month) && ValueSays(records[key], stat.value)
  }

  ghost predicate IsGroupKey(rows: seq<Row>, key: Text) {
    exists channel: Key, month: nat :: KeySays(key, channel, month) && At(rows, channel, month).Some?
  }

  /** The records are those of the reference fold: one for every group that has rows, saying its
      statistics, and no other. */
  ghost predicate FoldRecords(rows: seq<Row>, records: map<Text, Text>) {
    && (forall channel: Key, month: nat :: Recorded(rows, records, channel, month))
    && forall key :: key in records ==> IsGroupKey(rows, key)
  }

  lemma RecordedGroup(rows: seq<Row>, g: Groups, records: map<Text, Text>, channel: Key, month: nat)
    requires HoldsGroups(rows, g) && Writable(g)
    requires forall id: nat, m: nat :: id < |g.dict| && m < MONTHS ==> HasRecord(g, records, id, m)
    ensures Recorded(rows, records, channel, month)
  {
    if channel in g.dict && month < MONTHS {
      var id :| 0 <= id < |g.dict| && g.dict[id] == channel;
      assert HasRecord(g, records, id, month);
      assert GroupOk(g.dict[id], month, g.stats[Slot(id, month)]);
      RecordKeySays(channel, month);
      if At(rows, channel, month).Some? {
        RecordValueSays(At(rows, channel, month).value);
      }
    }
  }

  lemma GroupKey(rows: seq<Row>, g: Groups, key: Text)
    requires HoldsGroups(rows, g) && Writable(g) && HasGroup(g, key)
    ensures IsGroupKey(rows, key)
  {
    var id: nat, month: nat :| id < |g.dict| && month < MONTHS && g.stats[Slot(id, month)].Some? &&
                               RecordKey(g.dict[id], month) == key;
    RecordKeySays(g.dict[id], month);
    assert At(rows, g.dict[id], month).Some?;
  }

  /** Whatever the order of its channels, a map of printable rows prints a file that loads as exactly
      the records of the fold. */
  lemma PrintsTheFold(rows: seq<Row>, g: Groups, order: seq<nat>)
    requires HoldsGroups(rows, g) && PrintableRows(rows) && Visits(order, |g.dict|)
    ensures Writable(g) && LoadedFile(g, order).Records? && FoldRecords(rows, LoadedFile(g, order).records)
  {
    MapIsWritable(rows, g);
    var records := FileLoadsBack(g, order);
    forall channel: Key, month: nat ensures Recorded(rows, records, channel, month) {
      RecordedGroup(rows, g, records, channel, month);
    }
    forall key | key in records ensures IsGroupKey(rows, key) {
      GroupKey(rows, g, key);
    }
  }

  lemma SameFoldRecord(rows: seq<Row>, from: map<Text, Text>, to: map<Text, Text>, key: Text)
    requires FoldRecords(rows, from) && FoldRecords(rows, to) && key in from
    ensures key in to && from[key] == to[key]
  {
    assert IsGroupKey(rows, key);
    var channel: Key, month: nat :| KeySays(key, channel, month) && At(rows, channel, month).Some?;
    var a := At(rows, channel, month).value;
    RecordOfGroupSays(rows, from, channel, month, key);
    RecordOfGroupSays(rows, to, channel, month, key);
    GroupCounts(rows, channel, month);
    ValueSaysOnce(from[key], to[key], a);
  }

  lemma RecordOfGroupSays(rows: seq<Row>, records: map<Text, Text>, channel: Key, month: nat, key: Text)
    requires FoldRecords(rows, records) && At(rows, channel, month).Some? && KeySays(key, channel, month)
    ensures key in records && ValueSays(records[key], At(rows, channel, month).value)
  {
    assert Recorded(rows, records, channel, month);
    var own :| own in records && KeySays(own, channel, month) && ValueSays(records[own], At(rows, channel, month).value);
    KeySaysOnce(own, key, channel, month);
  }

  lemma {:induction false} GroupCounts(rows: seq<Row>, channel: Key, month: nat)
    ensures At(rows, channel, month).Some? ==> At(rows, channel, month).value.count >= 1
  {
    if |rows| > 0 {
      GroupCounts(rows[..|rows| - 1], channel, month);
    }
  }

  /** Only one set of records is that of the fold. */
  lemma FoldRecordsAreUnique(rows: seq<Row>, from: map<Text, Text>, to: map<Text, Text>)
    requires FoldRecords(rows, from) && FoldRecords(rows, to)
    ensures from == to
  {
    forall key | key in from ensures key in to && from[key] == to[key] {
      SameFoldRecord(rows, from, to, key);
    }
    forall key | key in to ensures key in from {
      SameFoldRecord(rows, to, from, key);
    }
  }

  /** Two maps of the same rows print files that load as the same records, in whatever order
      their channels were discovered and are printed. */
  lemma SameRowsSameRecords(rows: seq<Row>, g: Groups, first: seq<nat>, h: Groups, second: seq<nat>)
    requires HoldsGroups(rows, g) && HoldsGroups(rows, h) && PrintableRows(rows)
    requires Visits(first, |g.dict|) && Visits(second, |h.dict|)
    ensures Writable(g) && Writable(h)
    ensures LoadedFile(g, first).Records? && LoadedFile(g, first) == LoadedFile(h, second)
  {
    PrintsTheFold(rows, g, first);
    PrintsTheFold(rows, h, second);
    FoldRecordsAreUnique(rows, LoadedFile(g, first).records, LoadedFile(h, second).records);
  }
}
