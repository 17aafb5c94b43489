/** The concurrent part of the optimized C analyzer.  Workers read disjoint chunks of rows;
    the first one that has seen every channel tries to publish its dictionary through one
    shared atomic word, and the others re-key their accumulators to it.  A run is any
    interleaving of atomic steps: one row, or one access of the shared word. */
module Publication {
  import opened ReferenceFold
  import opened Collections
  import opened Cells
  import opened Tables
  import opened Queues

  /** global_dictionary: null, the two sentinels, or a pointer to the publisher's map. */
  datatype Word = Null | Building | Failed | Published(owner: nat)

  /** Where a worker is between two atomic steps. */
  datatype Pc =
    | Parsing                   // before a row of the discovery loop
    | Checking                  // before the first load in maybe_publish_dictionary
    | Claiming                  // before the compare-and-exchange
    | BuildingIndex             // inside build_mph
    | Publishing(built: bool)   // before the store of the outcome
    | Adopting(owner: nat)      // about to write its last row and re-key its map
    | Steady                    // before a row of the published loop
    | Finishing                 // before the last load of analyze_worker
    | Finished
    | Missed                    // "published dictionary miss"

  datatype Worker = Worker(pc: Pc, pos: nat, table: Table, queue: seq<Pending>, canonical: bool)

  datatype State = State(word: Word, workers: seq<Worker>)

  // ---- The published input guarantees ------------------------------------------------

  function ChannelsOf(rows: seq<Row>): set<Key> { set i | 0 <= i < |rows| :: rows[i].channel }

  ghost predicate Contract(chunks: seq<seq<Row>>) {
    && |chunks| >= 1
    && (forall r :: r in Flatten(chunks) ==> r.month < MONTHS && r.length >= 1)
    && |ChannelsOf(Flatten(chunks))| <= CONTEST_CHANNELS
    && (forall channel: Key, month: nat :: Fits(At(Flatten(chunks), channel, month)))
  }

  // ---- What every worker has counted -------------------------------------------------

  /** Table and queue of a worker together hold exactly the rows it has consumed. */
  ghost predicate Accounts(rows: seq<Row>, t: Table, queue: seq<Pending>) {
    && Shaped(t)
    && QueueOk(queue, |t.dict|)
    && (forall id: nat, month: nat :: id < |t.dict| && month < MONTHS ==>
          Holds(t, queue, id, month) == At(rows, t.dict[id], month))
    && (forall channel: Key, month: nat :: channel !in t.dict || month >= MONTHS ==> At(rows, channel, month).None?)
  }

  predicate QueueDepth(me: Worker) {
    match me.pc
    case Steady => |me.queue| == 5
    case Finishing => |me.queue| == 0
    case Finished => |me.queue| == 0
    case Missed => true
    case _ => |me.queue| == 1
  }

  ghost predicate WorkerOk(rows: seq<Row>, universe: set<Key>, me: Worker) {
    && me.pos <= |rows|
    && Accounts(rows[..me.pos], me.table, me.queue)
    && (forall id :: 0 <= id < |me.table.dict| ==> me.table.dict[id] in universe)
    && QueueDepth(me)
    && (me.pc == Finished ==> me.pos == |rows|)
    && (me.pc == Finishing ==> me.pos == |rows|)
  }

  /** What a worker's program counter says about the shared word. */
  ghost predicate Agrees(word: Word, me: Worker) {
    match me.pc
    case Claiming => |me.table.dict| == CONTEST_CHANNELS && !me.canonical
    case BuildingIndex => word == Building && |me.table.dict| == CONTEST_CHANNELS && !me.canonical
    case Publishing(_) => word == Building && |me.table.dict| == CONTEST_CHANNELS && !me.canonical
    case Adopting(owner) => word == Published(owner) && !me.canonical
    case Steady => me.canonical
    case Finished => true
    case Missed => false
    case _ => !me.canonical
  }

  predicate Builds(me: Worker) { me.pc.BuildingIndex? || me.pc.Publishing? }

  /** The publisher no longer changes its dictionary, which names every channel. */
  ghost predicate PublisherOk(s: State, owner: nat) {
    && owner < |s.workers|
    && |s.workers[owner].table.dict| == CONTEST_CHANNELS
    && (s.workers[owner].pc == Adopting(owner) || s.workers[owner].pc == Steady || s.workers[owner].pc == Finished)
    && (s.workers[owner].canonical || s.workers[owner].pc == Adopting(owner))
  }

  ghost predicate SharedOk(s: State) {
    && (forall w :: 0 <= w < |s.workers| ==> Agrees(s.word, s.workers[w]))
    && (forall v, w {:trigger Builds(s.workers[v]), Builds(s.workers[w])} :: 0 <= v < w < |s.workers| ==>
          !(Builds(s.workers[v]) && Builds(s.workers[w])))
    && (s.word == Building ==> exists w :: 0 <= w < |s.workers| && Builds(s.workers[w]))
    && (s.word.Published? ==> PublisherOk(s, s.word.owner))
    && (forall w :: 0 <= w < |s.workers| && s.workers[w].canonical ==>
          s.word.Published? && s.workers[w].table.dict == s.workers[s.word.owner].table.dict)
  }

  ghost predicate Inv(chunks: seq<seq<Row>>, s: State) {
    && |s.workers| == |chunks|
    && (forall w :: 0 <= w < |chunks| ==> WorkerOk(chunks[w], ChannelsOf(Flatten(chunks)), s.workers[w]))
    && SharedOk(s)
  }

  // ---- The atomic steps --------------------------------------------------------------

  const START := Worker(Parsing, 0, NO_CHANNELS, [Idle], false)

  function Init(chunks: seq<seq<Row>>): State { State(Null, seq(|chunks|, i => START)) }

  predicate RowOk(r: Row) {
    r.month < MONTHS && 1 <= r.length < WORD32_LIMIT && r.stamps < WORD32_LIMIT
  }

  /** One row of the discovery loop: find or insert its channel, write the queued row, then
      queue this one. */
  ghost function ParseRow(me: Worker, r: Row): Worker
    requires Shaped(me.table) && |me.queue| == 1 && PendingOk(me.queue[0], |me.table.dict|) && RowOk(r)
  {
    InternShaped(me.table, r.channel);
    var t := Intern(me.table, r.channel);
    var (table, queue) := Consume(t, me.queue, IndexOf(t.dict, r.channel), r.month, r.length, r.stamps);
    Worker(Checking, me.pos + 1, table, queue, me.canonical)
  }

  /** One row of the published loop: its channel is looked up in the shared dictionary. */
  ghost function SteadyRow(me: Worker, shared: seq<Key>, r: Row): Worker
    requires Shaped(me.table) && |me.table.dict| == |shared|
    requires |me.queue| == 5 && PendingOk(me.queue[0], |me.table.dict|) && RowOk(r)
  {
    if r.channel in shared then
      var (table, queue) := Consume(me.table, me.queue, IndexOf(shared, r.channel), r.month, r.length, r.stamps);
      me.(pos := me.pos + 1, table := table, queue := queue)
    else me.(pc := Missed)
  }

  const EMPTY_QUEUE: seq<Pending> := [Idle, Idle, Idle, Idle, Idle]

  /** Writes what is queued and moves the accumulators to the shared IDs.  The publisher
      keeps its own IDs; any other worker looks every local channel up. */
  ghost function Canonicalize(me: Worker, isOwner: bool, shared: seq<Key>, next: Pc): Worker
    requires Shaped(me.table) && QueueOk(me.queue, |me.table.dict|) && HoldsFit(me.table, me.queue)
  {
    DrainAllKeeps(me.table, me.queue);
    var drained := DrainAll(me.table, me.queue);
    var queue := if next == Steady then EMPTY_QUEUE else [];
    if isOwner then Worker(next, me.pos, drained, queue, true)
    else if forall id :: 0 <= id < |drained.dict| ==> drained.dict[id] in shared
    then Worker(next, me.pos, Rekey(drained, shared), queue, true)
    else me.(pc := Missed)
  }

  /** maybe_publish_dictionary up to its compare-and-exchange. */
  function Check(me: Worker, word: Word): Worker {
    match word
    case Published(owner) => me.(pc := Adopting(owner))
    case Null => me.(pc := if |me.table.dict| == CONTEST_CHANNELS then Claiming else Parsing)
    case _ => me.(pc := Parsing)
  }

  /** The compare-and-exchange succeeds only on null. */
  function Claim(me: Worker, word: Word): (Worker, Word) {
    match word
    case Null => (me.(pc := BuildingIndex), Building)
    case Published(owner) => (me.(pc := Adopting(owner)), word)
    case _ => (me.(pc := Parsing), word)
  }

  /** The release store of the outcome of build_mph. */
  function Publish(me: Worker, w: nat, built: bool): (Worker, Word) {
    if built then (me.(pc := Adopting(w)), Published(w)) else (me.(pc := Parsing), Failed)
  }

  /** A worker reads only its own chunk; `built` is the outcome of build_mph. */
  ghost function Move(chunks: seq<seq<Row>>, s: State, w: nat, built: bool): (Worker, Word)
    requires Contract(chunks) && Inv(chunks, s) && w < |chunks|
  {
    var me, rows := s.workers[w], chunks[w];
    HoldsAlwaysFit(chunks, s, w);
    match me.pc
    case Parsing =>
      if me.pos < |rows| then
        RowsOk(chunks, w, me.pos);
        (ParseRow(me, rows[me.pos]), s.word)
      else
        (Worker(Finishing, me.pos, DrainAll(me.table, me.queue), [], me.canonical), s.word)
    case Checking => (Check(me, s.word), s.word)
    case Claiming => Claim(me, s.word)
    case BuildingIndex => (me.(pc := Publishing(built)), s.word)
    case Publishing(outcome) => Publish(me, w, outcome)
    case Adopting(owner) => (Canonicalize(me, owner == w, s.workers[owner].table.dict, Steady), s.word)
    case Steady =>
      if me.pos < |rows| then
        RowsOk(chunks, w, me.pos);
        (SteadyRow(me, s.workers[s.word.owner].table.dict, rows[me.pos]), s.word)
      else
        (Worker(Finished, me.pos, DrainAll(me.table, me.queue), [], me.canonical), s.word)
    case Finishing =>
      (match s.word
       case Published(owner) => Canonicalize(me, false, s.workers[owner].table.dict, Finished)
       case _ => me.(pc := Finished), s.word)
    case _ => (me, s.word)
  }

  ghost function Step(chunks: seq<seq<Row>>, s: State, w: nat, built: bool): State
    requires Contract(chunks) && Inv(chunks, s) && w < |chunks|
  {
    var (me, word) := Move(chunks, s, w, built);
    State(word, s.workers[w := me])
  }

  // ---- Consequences of the input guarantees ------------------------------------------

  lemma {:induction false} FlattenPrefix(chunks: seq<seq<Row>>, w: nat, pos: nat, channel: Key, month: nat)
    requires w < |chunks| && pos <= |chunks[w]|
    requires Fits(At(Flatten(chunks), channel, month))
    ensures Fits(At(chunks[w][..pos], channel, month))
  {
    var last := chunks[|chunks| - 1];
    AtConcat(Flatten(chunks[..|chunks| - 1]), last, channel, month);
    FitsPart(At(Flatten(chunks[..|chunks| - 1]), channel, month), At(last, channel, month));
    if w == |chunks| - 1 {
      assert last == last[..pos] + last[pos..];
      AtConcat(last[..pos], last[pos..], channel, month);
      FitsPart(At(last[..pos], channel, month), At(last[pos..], channel, month));
    } else {
      FlattenPrefix(chunks[..|chunks| - 1], w, pos, channel, month);
    }
  }

  /** Group totals that fit bound every single row as well. */
  lemma RowsOk(chunks: seq<seq<Row>>, w: nat, pos: nat)
    requires Contract(chunks) && w < |chunks| && pos < |chunks[w]|
    ensures RowOk(chunks[w][pos]) && chunks[w][pos].channel in ChannelsOf(Flatten(chunks))
  {
    var r := chunks[w][pos];
    FlattenMember(chunks, w, pos);
    FlattenPrefix(chunks, w, pos + 1, r.channel, r.month);
    assert chunks[w][..pos + 1] == chunks[w][..pos] + [r];
    AtSnoc(chunks[w][..pos], r, r.channel, r.month);
    FitsPart(At(chunks[w][..pos], r.channel, r.month), Single(r.length, r.stamps));
  }

  lemma HoldsAlwaysFit(chunks: seq<seq<Row>>, s: State, w: nat)
    requires Contract(chunks) && w < |chunks| && |s.workers| == |chunks|
    requires WorkerOk(chunks[w], ChannelsOf(Flatten(chunks)), s.workers[w])
    ensures HoldsFit(s.workers[w].table, s.workers[w].queue)
  {
    var me := s.workers[w];
    forall id: nat, month: nat | id < |me.table.dict| && month < MONTHS
      ensures Fits(Holds(me.table, me.queue, id, month))
    {
      FlattenPrefix(chunks, w, me.pos, me.table.dict[id], month);
    }
  }

  // ---- One worker's accounts over its own steps --------------------------------------

  ghost predicate AlwaysFits(rows: seq<Row>) {
    forall channel: Key, month: nat :: Fits(At(rows, channel, month))
  }

  lemma InternAccounts(rows: seq<Row>, t: Table, queue: seq<Pending>, channel: Key)
    requires Accounts(rows, t, queue)
    ensures Accounts(rows, Intern(t, channel), queue)
  {
    var wider := Intern(t, channel);
    InternShaped(t, channel);
    forall id: nat, month: nat | id < |wider.dict| && month < MONTHS
      ensures Holds(wider, queue, id, month) == At(rows, wider.dict[id], month)
    {
      if id >= |t.dict| {
        assert wider.cells[Slot(id, month)] == EMPTY_CELL;
        OwedNothing(queue, id, month);
        assert At(rows, channel, month).None?;
      } else {
        assert Holds(t, queue, id, month) == At(rows, t.dict[id], month);
      }
    }
  }

  lemma ConsumeAccounts(rows: seq<Row>, t: Table, queue: seq<Pending>, id: nat, r: Row)
    requires Accounts(rows, t, queue) && |queue| > 0
    requires id < |t.dict| && t.dict[id] == r.channel && RowOk(r) && AlwaysFits(rows) && AlwaysFits(rows + [r])
    ensures var c := Consume(t, queue, id, r.month, r.length, r.stamps);
            Accounts(rows + [r], c.0, c.1) && c.0.dict == t.dict && |c.1| == |queue|
  {
    assert HoldsFit(t, queue);
    AtSnoc(rows, r, r.channel, r.month);
    ConsumeCounts(t, queue, id, r.month, r.length, r.stamps);
    var c := Consume(t, queue, id, r.month, r.length, r.stamps);
    forall i: nat, m: nat | i < |t.dict| && m < MONTHS
      ensures Holds(c.0, c.1, i, m) == At(rows + [r], t.dict[i], m)
    {
      AtSnoc(rows, r, t.dict[i], m);
      assert Holds(t, queue, i, m) == At(rows, t.dict[i], m);
      assert i == id <==> t.dict[i] == r.channel;
    }
    forall channel: Key, month: nat | channel !in t.dict || month >= MONTHS
      ensures At(rows + [r], channel, month).None?
    {
      AtSnoc(rows, r, channel, month);
    }
  }

  lemma DrainAllAccounts(rows: seq<Row>, t: Table, queue: seq<Pending>)
    requires Accounts(rows, t, queue) && AlwaysFits(rows)
    ensures Accounts(rows, DrainAll(t, queue), []) && DrainAll(t, queue).dict == t.dict
  {
    assert HoldsFit(t, queue);
    DrainAllKeeps(t, queue);
    forall id: nat, month: nat | id < |t.dict| && month < MONTHS
      ensures Holds(DrainAll(t, queue), [], id, month) == At(rows, t.dict[id], month)
    {
      assert Value(DrainAll(t, queue).cells[Slot(id, month)]) == Holds(t, queue, id, month);
    }
  }

  /** A queue of idle positions owes nothing. */
  lemma IdleAccounts(rows: seq<Row>, t: Table, queue: seq<Pending>)
    requires Accounts(rows, t, []) && (forall i :: 0 <= i < |queue| ==> queue[i] == Idle)
    ensures Accounts(rows, t, queue)
  {
    forall id: nat, month: nat | id < |t.dict| && month < MONTHS
      ensures Holds(t, queue, id, month) == At(rows, t.dict[id], month)
    {
      OwedNothing(queue, id, month);
      assert Holds(t, [], id, month) == At(rows, t.dict[id], month);
    }
  }

  lemma AccountsLookup(rows: seq<Row>, t: Table, channel: Key, month: nat)
    requires Accounts(rows, t, [])
    ensures Lookup(t, channel, month) == At(rows, channel, month)
  {
    if channel in t.dict && month < MONTHS {
      var id := IndexOf(t.dict, channel);
      assert Holds(t, [], id, month) == At(rows, t.dict[id], month);
    }
  }

  lemma RekeyAccounts(rows: seq<Row>, t: Table, shared: seq<Key>)
    requires Accounts(rows, t, []) && Distinct(shared)
    requires forall id :: 0 <= id < |t.dict| ==> t.dict[id] in shared
    ensures Accounts(rows, Rekey(t, shared), [])
  {
    var r := Rekey(t, shared);
    if |shared| > 0 {
      RekeyKeepsGroups(t, shared, shared[0], 0);
    } else {
      RekeyKeepsGroups(t, shared, [], 0);
    }
    forall id: nat, month: nat | id < |shared| && month < MONTHS
      ensures Holds(r, [], id, month) == At(rows, shared[id], month)
    {
      RekeyKeepsGroups(t, shared, shared[id], month);
      AccountsLookup(rows, t, shared[id], month);
      IndexOfAt(shared, id);
    }
    forall channel: Key, month: nat | channel !in shared || month >= MONTHS
      ensures At(rows, channel, month).None?
    {
      AccountsLookup(rows, t, channel, month);
    }
  }

  // ---- Every step keeps the invariant ------------------------------------------------

  lemma ChunkFits(chunks: seq<seq<Row>>, w: nat, pos: nat)
    requires Contract(chunks) && w < |chunks| && pos <= |chunks[w]|
    ensures AlwaysFits(chunks[w][..pos])
  {
    forall channel: Key, month: nat ensures Fits(At(chunks[w][..pos], channel, month)) {
      FlattenPrefix(chunks, w, pos, channel, month);
    }
  }

  /** A dictionary of all contest channels contains every channel that can occur. */
  lemma CompleteDictionary(dict: seq<Key>, universe: set<Key>, channel: Key)
    requires Distinct(dict) && |dict| == CONTEST_CHANNELS && |universe| <= CONTEST_CHANNELS
    requires forall id :: 0 <= id < |dict| ==> dict[id] in universe
    requires channel in universe
    ensures channel in dict
  {
    if channel !in dict {
      DistinctSize(dict, universe - {channel});
    }
  }

  lemma ParseRowOk(chunks: seq<seq<Row>>, w: nat, me: Worker)
    requires Contract(chunks) && w < |chunks| && me.pc == Parsing && me.pos < |chunks[w]|
    requires WorkerOk(chunks[w], ChannelsOf(Flatten(chunks)), me)
    requires RowOk(chunks[w][me.pos])
    ensures WorkerOk(chunks[w], ChannelsOf(Flatten(chunks)), ParseRow(me, chunks[w][me.pos]))
  {
    var r, rows := chunks[w][me.pos], chunks[w][..me.pos];
    RowsOk(chunks, w, me.pos);
    ChunkFits(chunks, w, me.pos);
    ChunkFits(chunks, w, me.pos + 1);
    assert chunks[w][..me.pos + 1] == rows + [r];
    InternAccounts(rows, me.table, me.queue, r.channel);
    InternShaped(me.table, r.channel);
    var t := Intern(me.table, r.channel);
    ConsumeAccounts(rows, t, me.queue, IndexOf(t.dict, r.channel), r);
  }

  lemma SteadyRowOk(chunks: seq<seq<Row>>, w: nat, me: Worker, shared: seq<Key>)
    requires Contract(chunks) && w < |chunks| && me.pc == Steady && me.pos < |chunks[w]|
    requires WorkerOk(chunks[w], ChannelsOf(Flatten(chunks)), me)
    requires RowOk(chunks[w][me.pos])
    requires me.table.dict == shared && |shared| == CONTEST_CHANNELS
    ensures WorkerOk(chunks[w], ChannelsOf(Flatten(chunks)), SteadyRow(me, shared, chunks[w][me.pos]))
    ensures SteadyRow(me, shared, chunks[w][me.pos]).pc == Steady
    ensures SteadyRow(me, shared, chunks[w][me.pos]).table.dict == shared
  {
    var r, rows := chunks[w][me.pos], chunks[w][..me.pos];
    RowsOk(chunks, w, me.pos);
    ChunkFits(chunks, w, me.pos);
    ChunkFits(chunks, w, me.pos + 1);
    assert chunks[w][..me.pos + 1] == rows + [r];
    CompleteDictionary(shared, ChannelsOf(Flatten(chunks)), r.channel);
    ConsumeAccounts(rows, me.table, me.queue, IndexOf(shared, r.channel), r);
  }

  lemma CanonicalizeOk(chunks: seq<seq<Row>>, w: nat, me: Worker, isOwner: bool, shared: seq<Key>, next: Pc)
    requires Contract(chunks) && w < |chunks|
    requires WorkerOk(chunks[w], ChannelsOf(Flatten(chunks)), me)
    requires HoldsFit(me.table, me.queue)
    requires Distinct(shared) && |shared| == CONTEST_CHANNELS
    requires forall id :: 0 <= id < |shared| ==> shared[id] in ChannelsOf(Flatten(chunks))
    requires isOwner ==> shared == me.table.dict
    requires next == Steady || (next == Finished && me.pos == |chunks[w]|)
    ensures WorkerOk(chunks[w], ChannelsOf(Flatten(chunks)), Canonicalize(me, isOwner, shared, next))
    ensures Canonicalize(me, isOwner, shared, next).pc == next
    ensures Canonicalize(me, isOwner, shared, next).canonical
    ensures Canonicalize(me, isOwner, shared, next).table.dict == shared
  {
    var rows := chunks[w][..me.pos];
    ChunkFits(chunks, w, me.pos);
    DrainAllAccounts(rows, me.table, me.queue);
    var drained := DrainAll(me.table, me.queue);
    forall id | 0 <= id < |drained.dict| ensures drained.dict[id] in shared {
      CompleteDictionary(shared, ChannelsOf(Flatten(chunks)), drained.dict[id]);
    }
    RekeyAccounts(rows, drained, shared);
    var me' := Canonicalize(me, isOwner, shared, next);
    assert Accounts(rows, me'.table, []);
    IdleAccounts(rows, me'.table, me'.queue);
  }

  lemma InitOk(chunks: seq<seq<Row>>)
    requires Contract(chunks)
    ensures Inv(chunks, Init(chunks))
  {
    forall w | 0 <= w < |chunks|
      ensures WorkerOk(chunks[w], ChannelsOf(Flatten(chunks)), Init(chunks).workers[w])
    {
      assert chunks[w][..0] == [];
    }
  }

  /** The word moves only forward: null, building, and then one publisher or failure for ever. */
  predicate WordMoves(before: Word, after: Word) {
    match before
    case Null => after == Null || after == Building
    case Building => after == Building || after == Failed || after.Published?
    case _ => after == before
  }

  /** What a step of worker w may do to itself and to the shared word. */
  ghost predicate GoodMove(chunks: seq<seq<Row>>, s: State, w: nat, me': Worker, word': Word)
    requires |s.workers| == |chunks| && w < |chunks|
  {
    var me := s.workers[w];
    && WorkerOk(chunks[w], ChannelsOf(Flatten(chunks)), me')
    && Agrees(word', me')
    && WordMoves(s.word, word')
    && (word' == s.word ==> Builds(me') == Builds(me))
    && (word' == Building != s.word ==> s.word == Null && Builds(me'))
    && (word' == Failed != s.word ==> Builds(me) && !Builds(me'))
    && (word'.Published? && word' != s.word ==>
          word' == Published(w) && Builds(me) && me'.pc == Adopting(w) && |me'.table.dict| == CONTEST_CHANNELS)
    && (s.word == Published(w) ==> me'.table.dict == me.table.dict && me'.canonical && (me'.pc == Steady || me'.pc == Finished))
    && (me'.canonical ==> word' == s.word && s.word.Published? && s.word.owner < |s.workers| &&
                          me'.table.dict == s.workers[s.word.owner].table.dict)
  }

  lemma ReadMove(chunks: seq<seq<Row>>, s: State, w: nat, built: bool)
    requires Contract(chunks) && Inv(chunks, s) && w < |chunks|
    requires (s.workers[w].pc == Parsing || s.workers[w].pc == Steady) && s.workers[w].pos < |chunks[w]|
    ensures GoodMove(chunks, s, w, Move(chunks, s, w, built).0, Move(chunks, s, w, built).1)
  {
    var me := s.workers[w];
    assert Agrees(s.word, me);
    RowsOk(chunks, w, me.pos);
    if me.pc == Parsing {
      ParseRowOk(chunks, w, me);
    } else {
      SteadyRowOk(chunks, w, me, s.workers[s.word.owner].table.dict);
    }
  }

  lemma EndMove(chunks: seq<seq<Row>>, s: State, w: nat, built: bool)
    requires Contract(chunks) && Inv(chunks, s) && w < |chunks|
    requires (s.workers[w].pc == Parsing || s.workers[w].pc == Steady) && s.workers[w].pos == |chunks[w]|
    ensures GoodMove(chunks, s, w, Move(chunks, s, w, built).0, Move(chunks, s, w, built).1)
  {
    var me := s.workers[w];
    assert Agrees(s.word, me);
    ChunkFits(chunks, w, me.pos);
    DrainAllAccounts(chunks[w][..me.pos], me.table, me.queue);
  }

  lemma AdoptMove(chunks: seq<seq<Row>>, s: State, w: nat, built: bool)
    requires Contract(chunks) && Inv(chunks, s) && w < |chunks|
    requires s.workers[w].pc.Adopting? || (s.workers[w].pc == Finishing && s.word.Published?)
    ensures GoodMove(chunks, s, w, Move(chunks, s, w, built).0, Move(chunks, s, w, built).1)
  {
    var me := s.workers[w];
    assert Agrees(s.word, me);
    HoldsAlwaysFit(chunks, s, w);
    PublishedDictionary(chunks, s);
    var shared := s.workers[s.word.owner].table.dict;
    if me.pc.Adopting? {
      CanonicalizeOk(chunks, w, me, s.word.owner == w, shared, Steady);
    } else {
      CanonicalizeOk(chunks, w, me, false, shared, Finished);
    }
  }

  lemma WordMove(chunks: seq<seq<Row>>, s: State, w: nat, built: bool)
    requires Contract(chunks) && Inv(chunks, s) && w < |chunks|
    requires s.workers[w].pc == Checking || s.workers[w].pc == Claiming || Builds(s.workers[w])
    ensures GoodMove(chunks, s, w, Move(chunks, s, w, built).0, Move(chunks, s, w, built).1)
  {
    var me := s.workers[w];
    assert Agrees(s.word, me);
    var me', word' := Move(chunks, s, w, built).0, Move(chunks, s, w, built).1;
    assert me'.pos == me.pos && me'.table == me.table && me'.queue == me.queue && me'.canonical == me.canonical;
    assert WorkerOk(chunks[w], ChannelsOf(Flatten(chunks)), me');
  }

  lemma RestMove(chunks: seq<seq<Row>>, s: State, w: nat, built: bool)
    requires Contract(chunks) && Inv(chunks, s) && w < |chunks|
    requires s.workers[w].pc == Finished || s.workers[w].pc == Missed ||
             (s.workers[w].pc == Finishing && !s.word.Published?)
    ensures GoodMove(chunks, s, w, Move(chunks, s, w, built).0, Move(chunks, s, w, built).1)
  {
    assert Agrees(s.word, s.workers[w]);
  }

  lemma MoveOk(chunks: seq<seq<Row>>, s: State, w: nat, built: bool)
    requires Contract(chunks) && Inv(chunks, s) && w < |chunks|
    ensures GoodMove(chunks, s, w, Move(chunks, s, w, built).0, Move(chunks, s, w, built).1)
  {
    var me := s.workers[w];
    if me.pc == Parsing || me.pc == Steady {
      if me.pos < |chunks[w]| {
        ReadMove(chunks, s, w, built);
      } else {
        EndMove(chunks, s, w, built);
      }
    } else if me.pc.Adopting? || (me.pc == Finishing && s.word.Published?) {
      AdoptMove(chunks, s, w, built);
    } else if me.pc == Checking || me.pc == Claiming || Builds(me) {
      WordMove(chunks, s, w, built);
    } else {
      RestMove(chunks, s, w, built);
    }
  }

  /** What is published is one dictionary of exactly the contest channels. */
  lemma PublishedDictionary(chunks: seq<seq<Row>>, s: State)
    requires Contract(chunks) && Inv(chunks, s) && s.word.Published?
    ensures s.word.owner < |chunks|
    ensures var shared := s.workers[s.word.owner].table.dict;
            Distinct(shared) && |shared| == CONTEST_CHANNELS &&
            forall id :: 0 <= id < |shared| ==> shared[id] in ChannelsOf(Flatten(chunks))
  {
    assert WorkerOk(chunks[s.word.owner], ChannelsOf(Flatten(chunks)), s.workers[s.word.owner]);
  }

  lemma SharedAfter(chunks: seq<seq<Row>>, s: State, w: nat, me': Worker, word': Word)
    requires Inv(chunks, s) && w < |chunks| && GoodMove(chunks, s, w, me', word')
    ensures SharedOk(State(word', s.workers[w := me']))
  {
    var me, after := s.workers[w], State(word', s.workers[w := me']);
    assert Agrees(s.word, me);
    forall v | 0 <= v < |chunks| ensures Agrees(word', after.workers[v]) {
      if v != w {
        assert Agrees(s.word, s.workers[v]);
        assert Builds(s.workers[v]) ==> !Builds(s.workers[w]);
      }
    }
    if word' == Building {
      if s.word == Building {
        var b :| 0 <= b < |s.workers| && Builds(s.workers[b]);
        assert Builds(after.workers[b]);
      } else {
        assert Builds(after.workers[w]);
      }
    }
  }

  /** Every atomic step of every worker keeps the invariant. */
  lemma StepOk(chunks: seq<seq<Row>>, s: State, w: nat, built: bool)
    requires Contract(chunks) && Inv(chunks, s) && w < |chunks|
    ensures Inv(chunks, Step(chunks, s, w, built))
    ensures WordMoves(s.word, Step(chunks, s, w, built).word)
  {
    MoveOk(chunks, s, w, built);
    var me, word := Move(chunks, s, w, built).0, Move(chunks, s, w, built).1;
    SharedAfter(chunks, s, w, me, word);
  }
}
