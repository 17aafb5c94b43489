/** One worker of the optimized C analyzer from the bytes of its piece to its accumulators:
    discovery row by row, then, once a published dictionary is seen or its own is published,
    the published loop over the remaining rows. */
module Worker {
  import opened ReferenceFold
  import opened Collections
  import opened Cells
  import opened Tables
  import opened Queues
  import opened Months
  import opened Csv
  import opened Keys
  import opened Rows
  import opened DirectIds
  import opened Dictionary
  import opened Accumulators
  import opened Merging
  import opened Discovery
  import opened Merges
  import Publication
  import Steady
  import Mph

  type QSort = seq<Mph.MphBucket> -> seq<Mph.MphBucket>

  // ---- The account of a worker -------------------------------------------------------

  /** A worker between two rows: its map as a value, its delayed increment, the rows it has
      counted and the lines before it. */
  datatype Account = Account(t: Table, pending: Pending, done: seq<Row>, rest: seq<Line>)

  /** The channels in the order in which the rows first mention them. */
  ghost function FirstSeen(rows: seq<Row>): seq<Key> {
    if |rows| == 0 then []
    else
      var front, channel := FirstSeen(rows[..|rows| - 1]), rows[|rows| - 1].channel;
      if channel in front then front else front + [channel]
  }

  /** These lines are what lies between p and end. */
  ghost predicate Ahead(mem: seq<Byte>, p: nat, end: nat, rest: seq<Line>) {
    LinesAt(mem, p, rest) && p + |Body(rest)| == end
  }

  ghost predicate From(lines: seq<Line>, universe: set<Key>) {
    forall i :: 0 <= i < |lines| ==> lines[i].channel in universe
  }

  /** The published guarantees for these rows and channels. */
  ghost predicate Promised(rows: seq<Row>, universe: set<Key>) {
    Publication.AlwaysFits(rows) && WithinLimits(universe)
  }

  /** All rows, read and unread, when the account is right about both. */
  ghost function RowsIn(mem: seq<Byte>, p: nat, end: nat, universe: set<Key>, oldest: Delayed, a: Account)
    : (rows: Option<seq<Row>>)
  {
    if Ahead(mem, p, end, a.rest) && From(a.rest, universe) && Publication.Accounts(a.done, a.t, [a.pending]) &&
       StandsFor(oldest, a.pending) && Drawn(a.t.dict, universe) && a.t.dict == FirstSeen(a.done)
    then Some(a.done + RowsOf(a.rest))
    else None
  }

  // ---- One row of the discovery loop -------------------------------------------------

  lemma RowIsOk(line: Line)
    requires ValidLine(line)
    ensures Publication.RowOk(RowOf(line))
  {
    MonthOfMeaning(Decimal(line.timestamp));
  }

  /** What the row adds to the worker's account. */
  lemma RowCounted(done: seq<Row>, t: Table, pending: Pending, row: Row, u: Table, owed: Pending, universe: set<Key>)
    requires Publication.Accounts(done, t, [pending]) && Publication.RowOk(row)
    requires Publication.AlwaysFits(done) && Publication.AlwaysFits(done + [row])
    requires Drawn(t.dict, universe) && row.channel in universe && t.dict == FirstSeen(done)
    requires owed == Steady.Newest(IdAfter(t, row.channel), row)
    requires |t.cells| == MONTHS * |t.dict| && PendingOk(pending, |t.dict|)
    requires (u, [owed]) == Consume(Intern(t, row.channel), [pending], IdAfter(t, row.channel), row.month, row.length,
                                    row.stamps)
    ensures Publication.Accounts(done + [row], u, [owed]) && Drawn(u.dict, universe) && u.dict == FirstSeen(done + [row])
  {
    Publication.InternAccounts(done, t, [pending], row.channel);
    InternShaped(t, row.channel);
    Publication.ConsumeAccounts(done, Intern(t, row.channel), [pending], IdAfter(t, row.channel), row);
    assert (done + [row])[..|done|] == done;
  }

  /** Counts a row that was read. */
  method CountRow(map_: FlatMap, worker: Aggregates, key: Key, hash: Word32, month: nat, length: Word32, stamps: Word32,
                  oldest: Delayed, dummy: Stats, ghost t: Table, ghost pending: Pending, ghost done: seq<Row>,
                  ghost row: Row, ghost universe: set<Key>)
    returns (newest: Delayed, dummy': Stats, ghost u: Table, ghost owed: Pending)
    requires Publication.RowOk(row) && hash == HashKey(row.channel, map_.crc)
    requires key == row.channel && month == row.month && length == row.length && stamps == row.stamps
    requires Publication.Accounts(done, t, [pending]) && StandsFor(oldest, pending) && t.dict == FirstSeen(done)
    requires Publication.AlwaysFits(done) && Publication.AlwaysFits(done + [row])
    requires WithinLimits(universe) && Drawn(t.dict, universe) && row.channel in universe
    requires Holding(map_, worker, t)
    modifies map_, map_.entries, map_.keys, map_.fast, map_.fast2, map_.fast3, worker, worker.aggs, worker.wide
    ensures StandsFor(newest, owed)
    ensures Publication.Accounts(done + [row], u, [owed]) && Drawn(u.dict, universe) && u.dict == FirstSeen(done + [row])
    ensures worker.wide == old(worker.wide) || fresh(worker.wide)
    ensures Holding(map_, worker, u)
  {
    HoldingLeavesRoom(map_, worker, t, universe, key);
    assert [pending][0] == pending;
    newest, dummy', u := DiscoverRow(map_, worker, key, hash, month, length, stamps, oldest, dummy, t, pending, row);
    owed := Steady.Newest(IdAfter(t, key), row);
    RowCounted(done, t, pending, row, u, owed, universe);
  }

  /** Reads a line from memory and counts it. */
  method NextRow(mem: seq<Byte>, p: nat, monthByPeriod: array<nat>, map_: FlatMap, worker: Aggregates, oldest: Delayed,
                 dummy: Stats, ghost t: Table, ghost pending: Pending, ghost done: seq<Row>, ghost line: Line,
                 ghost universe: set<Key>)
    returns (next: nat, newest: Delayed, dummy': Stats, ghost u: Table, ghost owed: Pending)
    requires LineAt(mem, p, line) && PeriodTable(monthByPeriod[..])
    requires Publication.Accounts(done, t, [pending]) && StandsFor(oldest, pending) && t.dict == FirstSeen(done)
    requires Publication.AlwaysFits(done) && Publication.AlwaysFits(done + [RowOf(line)])
    requires WithinLimits(universe) && Drawn(t.dict, universe) && line.channel in universe
    requires Holding(map_, worker, t)
    modifies map_, map_.entries, map_.keys, map_.fast, map_.fast2, map_.fast3, worker, worker.aggs, worker.wide
    ensures next == p + |Text(line)| && StandsFor(newest, owed)
    ensures Publication.Accounts(done + [RowOf(line)], u, [owed]) && Drawn(u.dict, universe)
    ensures u.dict == FirstSeen(done + [RowOf(line)])
    ensures worker.wide == old(worker.wide) || fresh(worker.wide)
    ensures Holding(map_, worker, u)
  {
    LineIsRow(mem, p, line);
    RowIsOk(line);
    var month, key, hash, length, stamps, after :=
      ReadRow(mem, p, monthByPeriod, map_.crc, RowOf(line), SpellingOf(line), p + |Text(line)|);
    next := after;
    newest, dummy', u, owed := CountRow(map_, worker, key, hash, month, length, stamps, oldest, dummy, t, pending, done,
                                        RowOf(line), universe);
  }

  // ---- The discovery loop ------------------------------------------------------------

  lemma PartFits(rows: seq<Row>, a: seq<Row>, b: seq<Row>)
    requires Publication.AlwaysFits(rows) && a + b == rows
    ensures Publication.AlwaysFits(a)
  {
    forall channel: Key, month: nat ensures Fits(At(a, channel, month)) {
      AtConcat(a, b, channel, month);
      FitsPart(At(a, channel, month), At(b, channel, month));
    }
  }

  /** The next line is whole, and the lines behind it follow. */
  lemma NextAhead(mem: seq<Byte>, p: nat, end: nat, rest: seq<Line>)
    requires Ahead(mem, p, end, rest)
    ensures p < end <==> |rest| > 0
    ensures |rest| > 0 ==> LineAt(mem, p, rest[0]) && Ahead(mem, p + |Text(rest[0])|, end, rest[1..])
  {
    if |rest| > 0 {
      FirstLine(mem, p, rest);
      FirstByte(rest);
    }
  }

  lemma NextFrom(rest: seq<Line>, universe: set<Key>)
    requires From(rest, universe) && |rest| > 0
    ensures rest[0].channel in universe && From(rest[1..], universe)
  {
  }

  lemma NextSplit(done: seq<Row>, rest: seq<Line>)
    requires ValidLines(rest) && |rest| > 0
    ensures done + RowsOf(rest) == (done + [RowOf(rest[0])]) + RowsOf(rest[1..])
  {
  }

  /** One turn of the loop: a row moves from what is unread to what is counted. */
  method NextTurn(mem: seq<Byte>, p: nat, end: nat, monthByPeriod: array<nat>, map_: FlatMap, worker: Aggregates,
                  oldest: Delayed, dummy: Stats, ghost rows: seq<Row>, ghost a: Account, ghost universe: set<Key>)
    returns (next: nat, newest: Delayed, dummy': Stats, ghost b: Account)
    requires RowsIn(mem, p, end, universe, oldest, a) == Some(rows) && Promised(rows, universe)
    requires p < end && PeriodTable(monthByPeriod[..])
    requires Holding(map_, worker, a.t)
    modifies map_, map_.entries, map_.keys, map_.fast, map_.fast2, map_.fast3, worker, worker.aggs, worker.wide
    ensures p < next && RowsIn(mem, next, end, universe, newest, b) == Some(rows) && |b.done| == |a.done| + 1
    ensures worker.wide == old(worker.wide) || fresh(worker.wide)
    ensures Holding(map_, worker, b.t)
  {
    NextAhead(mem, p, end, a.rest);
    NextFrom(a.rest, universe);
    NextSplit(a.done, a.rest);
    ghost var line, later := a.rest[0], a.rest[1..];
    ghost var done := a.done + [RowOf(line)];
    PartFits(rows, a.done, RowsOf(a.rest));
    PartFits(rows, done, RowsOf(later));
    ghost var u, owed;
    next, newest, dummy', u, owed :=
      NextRow(mem, p, monthByPeriod, map_, worker, oldest, dummy, a.t, a.pending, a.done, line, universe);
    b := Account(u, owed, done, later);
  }

  /** All rows, where a stretch of discovery has stopped: behind row number `turns` of the stretch,
      or else at the end with fewer rows than that. */
  ghost function StoppedIn(mem: seq<Byte>, p: nat, end: nat, universe: set<Key>, oldest: Delayed, a0: Account,
                           turns: nat, seen: bool, a: Account)
    : (rows: Option<seq<Row>>)
  {
    var rows := RowsIn(mem, p, end, universe, oldest, a);
    if rows.Some? && (seen ==> |a.done| == |a0.done| + turns && turns > 0) &&
       (!seen ==> p == end && a.rest == [] && (turns == 0 || turns > |rows.value| - |a0.done|))
    then rows
    else None
  }

  /** Rows are discovered until the check after row number `turns` sees or makes a publication,
      or to the end. */
  method DiscoverRows(mem: seq<Byte>, begin: nat, end: nat, monthByPeriod: array<nat>, map_: FlatMap, worker: Aggregates,
                      turns: nat, first: Delayed, ghost rows: seq<Row>, ghost a0: Account, ghost universe: set<Key>)
    returns (p: nat, seen: bool, oldest: Delayed, ghost a: Account)
    requires RowsIn(mem, begin, end, universe, first, a0) == Some(rows) && Promised(rows, universe)
    requires PeriodTable(monthByPeriod[..])
    requires Holding(map_, worker, a0.t)
    modifies map_, map_.entries, map_.keys, map_.fast, map_.fast2, map_.fast3, worker, worker.aggs, worker.wide
    ensures StoppedIn(mem, p, end, universe, oldest, a0, turns, seen, a) == Some(rows)
    ensures worker.wide == old(worker.wide) || fresh(worker.wide)
    ensures Holding(map_, worker, a.t)
  {
    p, seen, oldest, a := begin, false, first, a0;
    var dummy, checks := EMPTY_STATS, 0;
    while p < end && !seen
      invariant RowsIn(mem, p, end, universe, oldest, a) == Some(rows)
      invariant |a.done| == |a0.done| + checks && (seen ==> checks == turns > 0) && (!seen ==> turns == 0 || checks < turns)
      invariant worker.wide == old(worker.wide) || fresh(worker.wide)
      invariant Holding(map_, worker, a.t)
      decreases end - p
    {
      p, oldest, dummy, a := NextTurn(mem, p, end, monthByPeriod, map_, worker, oldest, dummy, rows, a, universe);
      checks := checks + 1;
      seen := checks == turns;
    }
    NextAhead(mem, p, end, a.rest);
  }

  // ---- From the account to the accumulators ------------------------------------------

  /** The delayed increment is written. */
  method Settle(worker: Aggregates, oldest: Delayed, ghost dict: seq<Key>, ghost t: Table, ghost pending: Pending,
                ghost done: seq<Row>)
    returns (ghost u: Table)
    requires Publication.Accounts(done, t, [pending]) && StandsFor(oldest, pending) && Publication.AlwaysFits(done)
    requires Held(worker, dict, t)
    modifies worker.aggs
    ensures Publication.Accounts(done, u, []) && u.dict == t.dict
    ensures Held(worker, dict, u)
  {
    Publication.DrainAllAccounts(done, t, [pending]);
    u := Drain(t, pending);
    assert [pending][1..] == [] && DrainAll(t, [pending]) == DrainAll(u, []) == u;
    assert [pending][0] == pending;
    var dummy := WriteUsed(worker, oldest, EMPTY_STATS, dict, pending);
  }

  /** The same, with the worker's dictionary left as it is. */
  method SettleHolding(map_: FlatMap, worker: Aggregates, oldest: Delayed, ghost t: Table, ghost pending: Pending,
                       ghost done: seq<Row>)
    returns (ghost u: Table)
    requires Publication.Accounts(done, t, [pending]) && StandsFor(oldest, pending) && Publication.AlwaysFits(done)
    requires Holding(map_, worker, t)
    modifies worker.aggs
    ensures Publication.Accounts(done, u, []) && u.dict == t.dict
    ensures Holding(map_, worker, u)
  {
    u := Settle(worker, oldest, map_.dict, t, pending, done);
  }

  /** All rows when the settled accumulators stand for `done`. */
  ghost function SettledRows(mem: seq<Byte>, p: nat, end: nat, universe: set<Key>, t: Table, done: seq<Row>,
                             rest: seq<Line>)
    : (rows: Option<seq<Row>>)
  {
    if Ahead(mem, p, end, rest) && From(rest, universe) && Publication.Accounts(done, t, [])
    then Some(done + RowsOf(rest))
    else None
  }

  lemma SettledAccount(mem: seq<Byte>, p: nat, end: nat, universe: set<Key>, oldest: Delayed, a: Account, u: Table)
    requires RowsIn(mem, p, end, universe, oldest, a).Some?
    requires Publication.Accounts(a.done, u, []) && u.dict == a.t.dict
    ensures SettledRows(mem, p, end, universe, u, a.done, a.rest) == RowsIn(mem, p, end, universe, oldest, a)
    ensures Drawn(u.dict, universe)
  {
  }

  /** A group outside a known set of channels has no rows. */
  lemma {:induction false} UnknownGroup(dict: seq<Key>, rows: seq<Row>, channel: Key, month: nat)
    requires Steady.Known(dict, rows) && (channel !in dict || month >= MONTHS)
    ensures At(rows, channel, month) == None
  {
    if |rows| > 0 {
      UnknownGroup(dict, rows[..|rows| - 1], channel, month);
      assert Steady.KnownRow(dict, rows[|rows| - 1]);
    }
  }

  /** Accumulators that hold the rows so far, with the rest added, hold all rows. */
  lemma AllCounted(done: seq<Row>, t: Table, more: seq<Row>, u: Table)
    requires Publication.Accounts(done, t, []) && Steady.Adds(t, u, more) && Steady.Known(t.dict, more)
    ensures HoldsChunk(done + more, u)
  {
    forall channel: Key, month: nat ensures Lookup(u, channel, month) == At(done + more, channel, month) {
      AtConcat(done, more, channel, month);
      Publication.AccountsLookup(done, t, channel, month);
      if channel !in t.dict || month >= MONTHS {
        UnknownGroup(t.dict, more, channel, month);
      }
    }
  }

  /** The remaining rows fit on top of what has been counted. */
  lemma RestFits(rows: seq<Row>, done: seq<Row>, more: seq<Row>, t: Table)
    requires Publication.AlwaysFits(rows) && done + more == rows && Publication.Accounts(done, t, [])
    ensures Steady.Room(t, more)
  {
    forall id: nat, month: nat | id < |t.dict| && month < MONTHS
      ensures Fits(Merge(Value(t.cells[Slot(id, month)]), At(more, t.dict[id], month)))
    {
      assert Holds(t, [], id, month) == At(done, t.dict[id], month);
      AtConcat(done, more, t.dict[id], month);
    }
  }

  /** Every channel of the input is in the dictionary. */
  ghost predicate Names(dict: seq<Key>, universe: set<Key>) { forall key :: key in universe ==> key in dict }

  lemma RestKnown(dict: seq<Key>, rest: seq<Line>, universe: set<Key>)
    requires Names(dict, universe) && From(rest, universe) && ValidLines(rest)
    ensures Steady.Known(dict, RowsOf(rest))
  {
    forall i | 0 <= i < |rest| ensures Steady.KnownRow(dict, RowsOf(rest)[i]) {
      assert rest[i].channel in universe;
      RowIsOk(rest[i]);
    }
  }

  /** The channels of a dictionary whose index is complete. */
  ghost function IndexedNames(m: FlatMap): (names: Option<seq<Key>>)
    reads m, m.entries, m.keys, m.fast
    ensures names.Some? ==> names.value == m.dict
  {
    if m.Indexed() then Some(m.dict) else None
  }

  /** What adopters rely on: an index over all channels of the input. */
  ghost predicate Serves(m: FlatMap, crc: Crc, universe: set<Key>)
    reads m, m.entries, m.keys, m.fast
  {
    m.crc == crc && IndexedNames(m).Some? && Names(IndexedNames(m).value, universe)
  }

  /** Twelve accumulators for every channel of a dictionary, holding exactly these rows. */
  ghost predicate Closed(own: Aggregates, dict: seq<Key>, rows: seq<Row>)
    reads own, own.aggs, own.wide
  {
    own.Ok() && HoldsChunk(rows, Table(dict, own.Cells()))
  }

  /** A worker's own open map with its accumulators, holding exactly these rows. */
  ghost predicate Open(map_: FlatMap, own: Aggregates, rows: seq<Row>)
    reads map_, map_.entries, map_.keys, map_.fast, map_.fast2, map_.fast3, own, own.aggs, own.wide
  {
    InMemory(map_, own).Some? && HoldsChunk(rows, InMemory(map_, own).value)
  }

  /** What a worker that keeps its own map ends with: its channels, when the map is whole. */
  ghost function Kept(map_: FlatMap, own: Aggregates, rows: seq<Row>, universe: set<Key>): (names: Option<seq<Key>>)
    reads map_, map_.entries, map_.keys, map_.fast, map_.fast2, map_.fast3, own, own.aggs, own.wide
  {
    if Open(map_, own, rows) && Drawn(map_.dict, universe) then Some(map_.dict) else None
  }

  /** What a publisher ends with: the channels it has published, when others can rely on them. */
  ghost function Shared(map_: FlatMap, own: Aggregates, rows: seq<Row>, universe: set<Key>): (names: Option<seq<Key>>)
    reads map_, map_.entries, map_.keys, map_.fast, own, own.aggs, own.wide
  {
    if Serves(map_, map_.crc, universe) && Closed(own, map_.dict, rows) then Some(map_.dict) else None
  }

  /** The rows after publication, counted under the published IDs; the index is left as it is. */
  method CountRest(mem: seq<Byte>, p: nat, end: nat, monthByPeriod: array<nat>, dictionary: FlatMap, own: Aggregates,
                   ghost t: Table, ghost rows: seq<Row>, ghost done: seq<Row>, ghost rest: seq<Line>,
                   ghost universe: set<Key>)
    requires SettledRows(mem, p, end, universe, t, done, rest) == Some(rows) && Promised(rows, universe)
    requires PeriodTable(monthByPeriod[..])
    requires Serves(dictionary, dictionary.crc, universe)
    requires own.Ok() && Table(dictionary.dict, own.Cells()) == t
    modifies own, own.aggs, own.wide
    ensures own.wide == old(own.wide) || fresh(own.wide)
    ensures Closed(own, dictionary.dict, rows)
    ensures IndexedNames(dictionary) == old(IndexedNames(dictionary))
  {
    RestKnown(dictionary.dict, rest, universe);
    RestFits(rows, done, RowsOf(rest), t);
    Steady.SteadyRows(mem, p, end, dictionary, own, monthByPeriod, rest);
    AllCounted(done, t, RowsOf(rest), Table(dictionary.dict, own.Cells()));
  }

  lemma RekeyedRows(mem: seq<Byte>, p: nat, end: nat, universe: set<Key>, t: Table, done: seq<Row>, rest: seq<Line>,
                    shared: seq<Key>)
    requires SettledRows(mem, p, end, universe, t, done, rest).Some? && Drawn(t.dict, universe)
    requires Distinct(shared) && Names(shared, universe)
    ensures forall id :: 0 <= id < |t.dict| ==> t.dict[id] in shared
    ensures Shaped(t)
    ensures SettledRows(mem, p, end, universe, Rekey(t, shared), done, rest) == SettledRows(mem, p, end, universe, t, done, rest)
  {
    Publication.RekeyAccounts(done, t, shared);
  }

  /** Adopting another worker's dictionary, whatever is still to be read. */
  method Adopt(mem: seq<Byte>, p: nat, end: nat, monthByPeriod: array<nat>, map_: FlatMap, worker: Aggregates,
               dictionary: FlatMap, ghost t: Table, ghost rows: seq<Row>, ghost done: seq<Row>, ghost rest: seq<Line>,
               ghost universe: set<Key>)
    returns (canonical: Aggregates)
    requires SettledRows(mem, p, end, universe, t, done, rest) == Some(rows) && Promised(rows, universe)
    requires PeriodTable(monthByPeriod[..])
    requires Serves(dictionary, map_.crc, universe) && Drawn(t.dict, universe)
    requires Holding(map_, worker, t)
    ensures fresh(canonical) && fresh(canonical.aggs) && (canonical.wide != null ==> fresh(canonical.wide))
    ensures Closed(canonical, dictionary.dict, rows)
  {
    assert dictionary.Entered();
    RekeyedRows(mem, p, end, universe, t, done, rest, dictionary.dict);
    canonical := Canonicalize(map_, worker, dictionary, t);
    CountRest(mem, p, end, monthByPeriod, dictionary, canonical, Rekey(t, dictionary.dict), rows, done, rest, universe);
  }

  // ---- The worker's own publication --------------------------------------------------

  /** A worker may publish these channels: they are complete and build_mph can index them. */
  ghost predicate Publishes(dict: seq<Key>, crc: Crc, qsort: QSort) {
    |dict| == CONTEST_CHANNELS && Mph.Indexable(Hashes(dict, crc), qsort)
  }

  lemma CompleteNames(dict: seq<Key>, universe: set<Key>)
    requires Distinct(dict) && Drawn(dict, universe) && WithinLimits(universe) && |dict| == CONTEST_CHANNELS
    ensures Names(dict, universe)
  {
    forall key | key in universe ensures key in dict {
      Publication.CompleteDictionary(dict, universe, key);
    }
  }

  /** build_mph on the worker's own dictionary: the accumulators are not touched. */
  method BuildOwn(map_: FlatMap, worker: Aggregates, qsort: QSort, ghost t: Table) returns (built: bool)
    requires Holding(map_, worker, t) && map_.size == CONTEST_CHANNELS && Mph.Sorts(qsort)
    modifies map_.fast
    ensures t.dict == map_.dict && |t.dict| == CONTEST_CHANNELS && Distinct(t.dict)
    ensures built <==> Mph.Indexable(Hashes(t.dict, map_.crc), qsort)
    ensures built ==> IndexedNames(map_) == Some(map_.dict) && map_.Entered() && Held(worker, map_.dict, t)
    ensures !built ==> Holding(map_, worker, t)
  {
    built := map_.BuildMph(qsort);
    assert Held(worker, map_.dict, t);
  }

  /** The publisher's accumulators after its index is built: settled, and moved. */
  method Settled(map_: FlatMap, worker: Aggregates, oldest: Delayed, ghost t: Table, ghost pending: Pending,
                 ghost done: seq<Row>)
    returns (hot: Aggregates, ghost u: Table)
    requires Publication.Accounts(done, t, [pending]) && StandsFor(oldest, pending) && Publication.AlwaysFits(done)
    requires map_.Entered() && t.dict == map_.dict && Held(worker, map_.dict, t)
    modifies worker.aggs
    ensures hot.Ok() && fresh(hot) && fresh(hot.aggs) && hot.wide == worker.wide
    ensures Publication.Accounts(done, u, []) && Table(map_.dict, hot.Cells()) == u
    ensures IndexedNames(map_) == old(IndexedNames(map_))
  {
    u := Settle(worker, oldest, map_.dict, t, pending, done);
    hot := KeepOwn(map_, worker, u);
  }

  /** Publishing the worker's own complete dictionary: exactly when its index can be built, the
      remaining rows are counted with it, and the index is left for others; otherwise nothing has
      changed. */
  method PublishOwn(mem: seq<Byte>, p: nat, end: nat, monthByPeriod: array<nat>, map_: FlatMap, worker: Aggregates,
                    qsort: QSort, oldest: Delayed, ghost rows: seq<Row>, ghost a: Account, ghost universe: set<Key>)
    returns (built: bool, hot: Aggregates)
    requires RowsIn(mem, p, end, universe, oldest, a) == Some(rows) && Promised(rows, universe)
    requires PeriodTable(monthByPeriod[..]) && Mph.Sorts(qsort)
    requires Holding(map_, worker, a.t) && map_.size == CONTEST_CHANNELS
    modifies map_.fast, worker.aggs, worker.wide
    ensures built <==> Publishes(a.t.dict, map_.crc, qsort)
    ensures built ==> fresh(hot) && fresh(hot.aggs) && (hot.wide == old(worker.wide) || fresh(hot.wide))
    ensures built ==> Shared(map_, hot, rows, universe) == Some(a.t.dict)
    ensures !built ==> Holding(map_, worker, a.t)
  {
    built := BuildOwn(map_, worker, qsort, a.t);
    if !built {
      return built, worker;
    }
    CompleteNames(a.t.dict, universe);
    PartFits(rows, a.done, RowsOf(a.rest));
    ghost var u;
    hot, u := Settled(map_, worker, oldest, a.t, a.pending, a.done);
    CountRest(mem, p, end, monthByPeriod, map_, hot, u, rows, a.done, a.rest, universe);
  }

  // ---- The end of a worker -----------------------------------------------------------

  /** Settled accumulators of a worker that keeps its own map. */
  lemma HeldOpen(rows: seq<Row>, map_: FlatMap, worker: Aggregates, t: Table)
    requires Holding(map_, worker, t) && Publication.Accounts(rows, t, [])
    ensures Open(map_, worker, rows)
  {
    forall channel: Key, month: nat ensures Lookup(t, channel, month) == At(rows, channel, month) {
      Publication.AccountsLookup(rows, t, channel, month);
    }
  }

  /** A worker that has seen no publication while parsing: it keeps its own map. */
  method EndAlone(map_: FlatMap, worker: Aggregates, oldest: Delayed, ghost rows: seq<Row>, ghost a: Account)
    requires Publication.Accounts(rows, a.t, [a.pending]) && StandsFor(oldest, a.pending) && Publication.AlwaysFits(rows)
    requires Holding(map_, worker, a.t)
    modifies worker.aggs
    ensures Open(map_, worker, rows)
  {
    ghost var u := SettleHolding(map_, worker, oldest, a.t, a.pending, rows);
    HeldOpen(rows, map_, worker, u);
  }

  /** The delayed increment is written before another dictionary is adopted. */
  method SettleOwn(mem: seq<Byte>, p: nat, end: nat, map_: FlatMap, worker: Aggregates, oldest: Delayed,
                   ghost rows: seq<Row>, ghost a: Account, ghost universe: set<Key>)
    returns (ghost u: Table)
    requires RowsIn(mem, p, end, universe, oldest, a) == Some(rows) && Promised(rows, universe)
    requires Holding(map_, worker, a.t)
    modifies worker.aggs
    ensures SettledRows(mem, p, end, universe, u, a.done, a.rest) == Some(rows) && Drawn(u.dict, universe)
    ensures Holding(map_, worker, u)
  {
    PartFits(rows, a.done, RowsOf(a.rest));
    u := SettleHolding(map_, worker, oldest, a.t, a.pending, a.done);
    SettledAccount(mem, p, end, universe, oldest, a, u);
  }

  /** A worker that sees another worker's dictionary, at a check or at its end. */
  method EndAdopting(mem: seq<Byte>, p: nat, end: nat, monthByPeriod: array<nat>, map_: FlatMap, worker: Aggregates,
                     shared: FlatMap, oldest: Delayed, ghost rows: seq<Row>, ghost a: Account, ghost universe: set<Key>)
    returns (own: Aggregates)
    requires RowsIn(mem, p, end, universe, oldest, a) == Some(rows) && Promised(rows, universe)
    requires PeriodTable(monthByPeriod[..])
    requires Serves(shared, map_.crc, universe)
    requires Holding(map_, worker, a.t)
    modifies worker.aggs
    ensures fresh(own) && fresh(own.aggs) && (own.wide != null ==> fresh(own.wide))
    ensures Closed(own, shared.dict, rows)
  {
    ghost var u := SettleOwn(mem, p, end, map_, worker, oldest, rows, a, universe);
    own := Adopt(mem, p, end, monthByPeriod, map_, worker, shared, u, rows, a.done, a.rest, universe);
  }

  // ---- The whole worker --------------------------------------------------------------

  /** How a worker ends: with its own map, under another worker's dictionary, or as the one whose
      dictionary is published. */
  datatype Ending = Alone | Adopted | Publisher

  /** What decides it: whether another worker's dictionary can be seen, at the check after row
      number `turns` or at the last look, or else whether its own can be published at that check. */
  ghost function EndingOf(others: bool, atEnd: bool, turns: nat, rows: seq<Row>, crc: Crc, qsort: QSort): Ending {
    if others then if 0 < turns <= |rows| || atEnd then Adopted else Alone
    else if 0 < turns <= |rows| && Publishes(FirstSeen(rows[..turns]), crc, qsort) then Publisher
    else Alone
  }

  /** These are exactly the channels of the rows, each once. */
  lemma {:induction false} FirstSeenNames(rows: seq<Row>)
    ensures Distinct(FirstSeen(rows)) && forall c :: c in FirstSeen(rows) <==> c in Publication.ChannelsOf(rows)
    ensures |FirstSeen(rows)| == |Publication.ChannelsOf(rows)|
  {
    if |rows| > 0 {
      var front, last := rows[..|rows| - 1], rows[|rows| - 1];
      FirstSeenNames(front);
      assert Publication.ChannelsOf(rows) == Publication.ChannelsOf(front) + {last.channel} by {
        assert rows == front + [last];
        assert forall i :: 0 <= i < |front| ==> front[i] == rows[i];
      }
    }
    DistinctSize(FirstSeen(rows), Publication.ChannelsOf(rows));
    MembersSize(FirstSeen(rows), Publication.ChannelsOf(rows));
  }

  /** Beside a published dictionary a worker adopts it exactly when it looks; else it publishes exactly
      when its rows up to its check name all 10,000 channels and they can be indexed. */
  lemma EndsAs(others: bool, atEnd: bool, turns: nat, rows: seq<Row>, crc: Crc, qsort: QSort)
    ensures EndingOf(others, atEnd, turns, rows, crc, qsort) == Adopted <==> others && (atEnd || 1 <= turns <= |rows|)
    ensures EndingOf(others, atEnd, turns, rows, crc, qsort) == Publisher <==>
            && !others && 1 <= turns <= |rows| && |Publication.ChannelsOf(rows[..turns])| == 10000
            && Mph.Indexable(Hashes(FirstSeen(rows[..turns]), crc), qsort)
  {
    if turns <= |rows| {
      FirstSeenNames(rows[..turns]);
    }
  }

  const NO_ROWS := Account(NO_CHANNELS, Idle, [], [])

  lemma NothingCounted(mem: seq<Byte>, begin: nat, end: nat, lines: seq<Line>, universe: set<Key>)
    requires Ahead(mem, begin, end, lines) && From(lines, universe)
    ensures RowsIn(mem, begin, end, universe, NOTHING, NO_ROWS.(rest := lines)) == Some(RowsOf(lines))
  {
    forall channel: Key, month: nat ensures At([], channel, month) == None {
    }
    assert [] + RowsOf(lines) == RowsOf(lines);
  }

  /** map_init */
  method Start(crc: Crc) returns (map_: FlatMap, worker: Aggregates)
    ensures fresh(map_) && fresh(map_.Footprint())
    ensures fresh(worker) && fresh(worker.aggs) && worker.wide == null && map_.crc == crc
    ensures Holding(map_, worker, NO_CHANNELS)
  {
    map_ := new FlatMap(crc);
    worker := new Aggregates.Zeroed();
    assert Used([], worker.Cells()) == NO_CHANNELS;
  }

  /** Nothing a worker writes to its own dictionary touches the other one. */
  ghost predicate Separate(other: FlatMap, map_: FlatMap) {
    && other != map_ && other.entries != map_.entries && other.keys != map_.keys
    && other.fast != map_.fast && other.fast != map_.fast2 && other.fast != map_.fast3
  }

  /** Discovery leaves a published dictionary as it is. */
  method DiscoverBeside(mem: seq<Byte>, begin: nat, end: nat, monthByPeriod: array<nat>, map_: FlatMap, worker: Aggregates,
                        turns: nat, first: Delayed, ghost shared: FlatMap, ghost rows: seq<Row>, ghost a0: Account,
                        ghost universe: set<Key>)
    returns (p: nat, seen: bool, oldest: Delayed, ghost a: Account)
    requires RowsIn(mem, begin, end, universe, first, a0) == Some(rows) && Promised(rows, universe)
    requires PeriodTable(monthByPeriod[..])
    requires Separate(shared, map_)
    requires Holding(map_, worker, a0.t)
    modifies map_, map_.entries, map_.keys, map_.fast, map_.fast2, map_.fast3, worker, worker.aggs, worker.wide
    ensures StoppedIn(mem, p, end, universe, oldest, a0, turns, seen, a) == Some(rows)
    ensures worker.wide == old(worker.wide) || fresh(worker.wide)
    ensures IndexedNames(shared) == old(IndexedNames(shared))
    ensures Holding(map_, worker, a.t)
  {
    p, seen, oldest, a := DiscoverRows(mem, begin, end, monthByPeriod, map_, worker, turns, first, rows, a0, universe);
  }

  /** Where discovery from the first row has stopped. */
  lemma StoppedAt(mem: seq<Byte>, p: nat, end: nat, universe: set<Key>, oldest: Delayed, a0: Account, turns: nat,
                  seen: bool, a: Account, rows: seq<Row>)
    requires StoppedIn(mem, p, end, universe, oldest, a0, turns, seen, a) == Some(rows) && a0.done == []
    ensures RowsIn(mem, p, end, universe, oldest, a) == Some(rows)
    ensures seen <==> 0 < turns <= |rows|
    ensures seen ==> a.t.dict == FirstSeen(rows[..turns])
  {
    assert rows == a.done + RowsOf(a.rest);
    if seen {
      assert rows[..turns] == a.done;
    } else {
      assert rows == a.done;
    }
  }

  lemma StoppedAtEnd(mem: seq<Byte>, p: nat, end: nat, universe: set<Key>, oldest: Delayed, a0: Account, a: Account,
                     seen: bool, rows: seq<Row>)
    requires StoppedIn(mem, p, end, universe, oldest, a0, 0, seen, a) == Some(rows) && Promised(rows, universe)
    ensures RowsIn(mem, p, end, universe, oldest, a) == Some(rows)
    ensures Publication.Accounts(rows, a.t, [a.pending]) && StandsFor(oldest, a.pending) && Publication.AlwaysFits(rows)
    ensures a.t.dict == FirstSeen(rows) && Drawn(a.t.dict, universe)
  {
    assert a.done == a.done + RowsOf(a.rest);
  }

  /** Parsing to the end without a publication in sight. */
  method ParseAlone(mem: seq<Byte>, p: nat, end: nat, monthByPeriod: array<nat>, map_: FlatMap, worker: Aggregates,
                    oldest: Delayed, ghost rows: seq<Row>, ghost a: Account, ghost universe: set<Key>)
    requires RowsIn(mem, p, end, universe, oldest, a) == Some(rows) && Promised(rows, universe)
    requires PeriodTable(monthByPeriod[..])
    requires Holding(map_, worker, a.t)
    modifies map_, map_.entries, map_.keys, map_.fast, map_.fast2, map_.fast3, worker, worker.aggs, worker.wide
    ensures Kept(map_, worker, rows, universe) == Some(FirstSeen(rows))
    ensures worker.wide == old(worker.wide) || fresh(worker.wide)
  {
    var at, seen, newest;
    ghost var b;
    at, seen, newest, b := DiscoverRows(mem, p, end, monthByPeriod, map_, worker, 0, oldest, rows, a, universe);
    StoppedAtEnd(mem, at, end, universe, newest, a, b, seen, rows);
    EndAlone(map_, worker, newest, rows, b);
  }

  /** The check with nothing published: only a complete dictionary is tried. */
  method TryPublish(mem: seq<Byte>, p: nat, end: nat, monthByPeriod: array<nat>, map_: FlatMap, worker: Aggregates,
                    qsort: QSort, oldest: Delayed, ghost rows: seq<Row>, ghost a: Account, ghost universe: set<Key>)
    returns (built: bool, own: Aggregates)
    requires RowsIn(mem, p, end, universe, oldest, a) == Some(rows) && Promised(rows, universe)
    requires PeriodTable(monthByPeriod[..]) && Mph.Sorts(qsort)
    requires Holding(map_, worker, a.t)
    modifies map_.fast, worker.aggs, worker.wide
    ensures built <==> Publishes(a.t.dict, map_.crc, qsort)
    ensures built ==> fresh(own) && fresh(own.aggs) && (own.wide == old(worker.wide) || fresh(own.wide))
    ensures built ==> Shared(map_, own, rows, universe) == Some(a.t.dict)
    ensures !built ==> Holding(map_, worker, a.t)
  {
    if map_.size != CONTEST_CHANNELS {
      return false, worker;
    }
    built, own := PublishOwn(mem, p, end, monthByPeriod, map_, worker, qsort, oldest, rows, a, universe);
  }

  /** The end of a worker that has reached its last row and keeps its own map. */
  method EndKept(mem: seq<Byte>, p: nat, end: nat, map_: FlatMap, worker: Aggregates, oldest: Delayed, ghost a0: Account,
                 turns: nat, ghost rows: seq<Row>, ghost a: Account, ghost universe: set<Key>)
    requires StoppedIn(mem, p, end, universe, oldest, a0, turns, false, a) == Some(rows) && Promised(rows, universe)
    requires Holding(map_, worker, a.t)
    modifies worker.aggs
    ensures Kept(map_, worker, rows, universe) == Some(FirstSeen(rows))
  {
    assert a.done == a.done + RowsOf(a.rest);
    EndAlone(map_, worker, oldest, rows, a);
  }

  /** Whatever the check finds of its own, the worker counts all its rows. */
  method PublishOrGoOn(mem: seq<Byte>, p: nat, end: nat, monthByPeriod: array<nat>, map_: FlatMap, worker: Aggregates,
                       qsort: QSort, oldest: Delayed, ghost rows: seq<Row>, ghost a: Account, ghost universe: set<Key>)
    returns (published: bool, own: Aggregates)
    requires RowsIn(mem, p, end, universe, oldest, a) == Some(rows) && Promised(rows, universe)
    requires PeriodTable(monthByPeriod[..]) && Mph.Sorts(qsort)
    requires Holding(map_, worker, a.t)
    modifies map_, map_.entries, map_.keys, map_.fast, map_.fast2, map_.fast3, worker, worker.aggs, worker.wide
    ensures published <==> Publishes(a.t.dict, map_.crc, qsort)
    ensures own.wide == old(worker.wide) || fresh(own.wide)
    ensures published ==> fresh(own) && fresh(own.aggs) && Shared(map_, own, rows, universe) == Some(a.t.dict)
    ensures !published ==> own == worker && Kept(map_, own, rows, universe) == Some(FirstSeen(rows))
  {
    published, own := TryPublish(mem, p, end, monthByPeriod, map_, worker, qsort, oldest, rows, a, universe);
    if !published {
      own := worker;
      ParseAlone(mem, p, end, monthByPeriod, map_, worker, oldest, rows, a, universe);
    }
  }

  /** A worker that never sees another's dictionary.  The check after row number `turns` may
      publish its own. */
  method Unaided(mem: seq<Byte>, begin: nat, end: nat, monthByPeriod: array<nat>, map_: FlatMap, worker: Aggregates,
                 turns: nat, qsort: QSort, ghost rows: seq<Row>, ghost a0: Account, ghost universe: set<Key>)
    returns (published: bool, own: Aggregates)
    requires RowsIn(mem, begin, end, universe, NOTHING, a0) == Some(rows) && a0.done == [] && Promised(rows, universe)
    requires PeriodTable(monthByPeriod[..]) && Mph.Sorts(qsort)
    requires Holding(map_, worker, a0.t)
    modifies map_, map_.entries, map_.keys, map_.fast, map_.fast2, map_.fast3, worker, worker.aggs, worker.wide
    ensures published <==> 0 < turns <= |rows| && Publishes(FirstSeen(rows[..turns]), map_.crc, qsort)
    ensures own.wide == old(worker.wide) || fresh(own.wide)
    ensures published ==> fresh(own) && fresh(own.aggs)
    ensures published ==> Shared(map_, own, rows, universe) == Some(FirstSeen(rows[..turns]))
    ensures !published ==> own == worker && Kept(map_, own, rows, universe) == Some(FirstSeen(rows))
  {
    var p, seen, oldest;
    ghost var a;
    p, seen, oldest, a := DiscoverRows(mem, begin, end, monthByPeriod, map_, worker, turns, NOTHING, rows, a0, universe);
    published, own :=
      UnaidedAfter(mem, p, end, monthByPeriod, map_, worker, turns, seen, qsort, oldest, rows, a0, a, universe);
  }

  /** What follows its first stretch of discovery. */
  method UnaidedAfter(mem: seq<Byte>, p: nat, end: nat, monthByPeriod: array<nat>, map_: FlatMap, worker: Aggregates,
                      turns: nat, seen: bool, qsort: QSort, oldest: Delayed, ghost rows: seq<Row>, ghost a0: Account,
                      ghost a: Account, ghost universe: set<Key>)
    returns (published: bool, own: Aggregates)
    requires StoppedIn(mem, p, end, universe, oldest, a0, turns, seen, a) == Some(rows) && a0.done == []
    requires Promised(rows, universe) && PeriodTable(monthByPeriod[..]) && Mph.Sorts(qsort)
    requires Holding(map_, worker, a.t)
    modifies map_, map_.entries, map_.keys, map_.fast, map_.fast2, map_.fast3, worker, worker.aggs, worker.wide
    ensures published <==> 0 < turns <= |rows| && Publishes(FirstSeen(rows[..turns]), map_.crc, qsort)
    ensures own.wide == old(worker.wide) || fresh(own.wide)
    ensures published ==> fresh(own) && fresh(own.aggs)
    ensures published ==> Shared(map_, own, rows, universe) == Some(FirstSeen(rows[..turns]))
    ensures !published ==> own == worker && Kept(map_, own, rows, universe) == Some(FirstSeen(rows))
  {
    StoppedAt(mem, p, end, universe, oldest, a0, turns, seen, a, rows);
    if seen {
      published, own := PublishOrGoOn(mem, p, end, monthByPeriod, map_, worker, qsort, oldest, rows, a, universe);
    } else {
      published, own := false, worker;
      EndKept(mem, p, end, map_, worker, oldest, a0, turns, rows, a, universe);
    }
  }

  /** A worker beside a published dictionary, which it sees at the check after row number `turns`
      or at its last look, or not at all. */
  method Beside(mem: seq<Byte>, begin: nat, end: nat, monthByPeriod: array<nat>, map_: FlatMap, worker: Aggregates,
                shared: FlatMap, turns: nat, atEnd: bool, ghost rows: seq<Row>, ghost a0: Account,
                ghost universe: set<Key>)
    returns (adopted: bool, own: Aggregates)
    requires RowsIn(mem, begin, end, universe, NOTHING, a0) == Some(rows) && a0.done == [] && Promised(rows, universe)
    requires PeriodTable(monthByPeriod[..])
    requires Separate(shared, map_) && Serves(shared, map_.crc, universe)
    requires Holding(map_, worker, a0.t)
    modifies map_, map_.entries, map_.keys, map_.fast, map_.fast2, map_.fast3, worker, worker.aggs, worker.wide
    ensures adopted <==> 0 < turns <= |rows| || atEnd
    ensures own.wide == null || own.wide == old(worker.wide) || fresh(own.wide)
    ensures adopted ==> fresh(own) && fresh(own.aggs) && Closed(own, shared.dict, rows)
    ensures !adopted ==> own == worker && Kept(map_, own, rows, universe) == Some(FirstSeen(rows))
  {
    var p, seen, oldest;
    ghost var a;
    p, seen, oldest, a :=
      DiscoverBeside(mem, begin, end, monthByPeriod, map_, worker, turns, NOTHING, shared, rows, a0, universe);
    adopted, own :=
      BesideAfter(mem, p, end, monthByPeriod, map_, worker, shared, turns, seen, atEnd, oldest, rows, a0, a, universe);
  }

  /** What follows its first stretch of discovery. */
  method BesideAfter(mem: seq<Byte>, p: nat, end: nat, monthByPeriod: array<nat>, map_: FlatMap, worker: Aggregates,
                     shared: FlatMap, turns: nat, seen: bool, atEnd: bool, oldest: Delayed, ghost rows: seq<Row>,
                     ghost a0: Account, ghost a: Account, ghost universe: set<Key>)
    returns (adopted: bool, own: Aggregates)
    requires StoppedIn(mem, p, end, universe, oldest, a0, turns, seen, a) == Some(rows) && a0.done == []
    requires Promised(rows, universe) && PeriodTable(monthByPeriod[..]) && Serves(shared, map_.crc, universe)
    requires Holding(map_, worker, a.t)
    modifies worker.aggs
    ensures adopted <==> 0 < turns <= |rows| || atEnd
    ensures own.wide == null || own.wide == old(worker.wide) || fresh(own.wide)
    ensures adopted ==> fresh(own) && fresh(own.aggs) && Closed(own, shared.dict, rows)
    ensures !adopted ==> own == worker && Kept(map_, own, rows, universe) == Some(FirstSeen(rows))
  {
    StoppedAt(mem, p, end, universe, oldest, a0, turns, seen, a, rows);
    adopted := seen || atEnd;
    if adopted {
      own := EndAdopting(mem, p, end, monthByPeriod, map_, worker, shared, oldest, rows, a, universe);
    } else {
      own := worker;
      EndKept(mem, p, end, map_, worker, oldest, a0, turns, rows, a, universe);
    }
  }

  /** A worker's own empty map, apart from the published one. */
  method StartBeside(shared: FlatMap, ghost universe: set<Key>) returns (map_: FlatMap, worker: Aggregates)
    requires Serves(shared, shared.crc, universe)
    ensures fresh(map_) && fresh(map_.Footprint()) && fresh(worker) && fresh(worker.aggs) && worker.wide == null
    ensures Separate(shared, map_) && map_.crc == shared.crc && Holding(map_, worker, NO_CHANNELS)
    ensures Serves(shared, shared.crc, universe)
  {
    map_, worker := Start(shared.crc);
  }

  /** analyze_worker beside a published dictionary. */
  method WorkBeside(mem: seq<Byte>, begin: nat, end: nat, monthByPeriod: array<nat>, shared: FlatMap, turns: nat,
                    atEnd: bool, ghost lines: seq<Line>, ghost universe: set<Key>)
    returns (adopted: bool, own: Aggregates, map_: FlatMap)
    requires Ahead(mem, begin, end, lines) && From(lines, universe) && Promised(RowsOf(lines), universe)
    requires PeriodTable(monthByPeriod[..])
    requires Serves(shared, shared.crc, universe)
    ensures adopted <==> 0 < turns <= |lines| || atEnd
    ensures fresh(own) && fresh(own.aggs) && (own.wide == null || fresh(own.wide))
    ensures fresh(map_) && fresh(map_.Footprint()) && map_.crc == shared.crc
    ensures adopted ==> Closed(own, shared.dict, RowsOf(lines))
    ensures !adopted ==> Kept(map_, own, RowsOf(lines), universe) == Some(FirstSeen(RowsOf(lines)))
  {
    var worker;
    map_, worker := StartBeside(shared, universe);
    NothingCounted(mem, begin, end, lines, universe);
    adopted, own := Beside(mem, begin, end, monthByPeriod, map_, worker, shared, turns, atEnd, RowsOf(lines),
                           NO_ROWS.(rest := lines), universe);
  }

  /** analyze_worker where nobody else has published. */
  method WorkUnaided(mem: seq<Byte>, begin: nat, end: nat, crc: Crc, monthByPeriod: array<nat>, turns: nat, qsort: QSort,
                     ghost lines: seq<Line>, ghost universe: set<Key>)
    returns (published: bool, own: Aggregates, map_: FlatMap)
    requires Ahead(mem, begin, end, lines) && From(lines, universe) && Promised(RowsOf(lines), universe)
    requires PeriodTable(monthByPeriod[..]) && Mph.Sorts(qsort)
    ensures published <==> 0 < turns <= |lines| && Publishes(FirstSeen(RowsOf(lines)[..turns]), crc, qsort)
    ensures fresh(own) && fresh(own.aggs) && (own.wide == null || fresh(own.wide))
    ensures fresh(map_) && fresh(map_.Footprint()) && map_.crc == crc
    ensures published ==> Shared(map_, own, RowsOf(lines), universe) == Some(FirstSeen(RowsOf(lines)[..turns]))
    ensures !published ==> Kept(map_, own, RowsOf(lines), universe) == Some(FirstSeen(RowsOf(lines)))
  {
    var worker;
    map_, worker := Start(crc);
    NothingCounted(mem, begin, end, lines, universe);
    published, own := Unaided(mem, begin, end, monthByPeriod, map_, worker, turns, qsort, RowsOf(lines),
                              NO_ROWS.(rest := lines), universe);
  }

  /** analyze_worker, from the bytes of its piece.  The check after row number `turns` (0 for none)
      is the first to find something: the dictionary another worker has published, or the worker's
      own complete one still unpublished; `atEnd` says whether the last look at the word finds a
      published dictionary.  How the worker ends is decided by these and by whether an index can be
      built.  In every case its accumulators hold exactly the fold of the piece's rows. */
  method AnalyzeWorker(mem: seq<Byte>, begin: nat, end: nat, crc: Crc, monthByPeriod: array<nat>, turns: nat,
                       shared: FlatMap?, atEnd: bool, qsort: QSort, ghost lines: seq<Line>, ghost universe: set<Key>)
    returns (ending: Ending, own: Aggregates, names: FlatMap)
    requires Ahead(mem, begin, end, lines) && From(lines, universe) && Promised(RowsOf(lines), universe)
    requires PeriodTable(monthByPeriod[..]) && Mph.Sorts(qsort)
    requires shared != null ==> Serves(shared, crc, universe)
    ensures ending == EndingOf(shared != null, atEnd, turns, RowsOf(lines), crc, qsort)
    ensures fresh(own) && fresh(own.aggs) && (own.wide == null || fresh(own.wide)) && names.crc == crc
    ensures if ending.Adopted? then names == shared else fresh(names) && fresh(names.Footprint())
    ensures ending.Adopted? ==> Closed(own, names.dict, RowsOf(lines))
    ensures ending.Publisher? ==> Shared(names, own, RowsOf(lines), universe) == Some(FirstSeen(RowsOf(lines)[..turns]))
    ensures ending.Alone? ==> Kept(names, own, RowsOf(lines), universe) == Some(FirstSeen(RowsOf(lines)))
  {
    var other;
    if shared == null {
      other, own, names := WorkUnaided(mem, begin, end, crc, monthByPeriod, turns, qsort, lines, universe);
      return if other then Publisher else Alone, own, names;
    }
    other, own, names := WorkBeside(mem, begin, end, monthByPeriod, shared, turns, atEnd, lines, universe);
    return if other then Adopted else Alone, own, if other then shared else names;
  }
}
