/** Whole runs of the parallel analyzer: the history of the shared word, and the result the
    main thread merges after all workers have been joined. */
module Runs {
  import opened ReferenceFold
  import opened Cells
  import opened Tables
  import opened Queues
  import opened Merging
  import opened Publication

  /** Which worker moves next, and whether build_mph would succeed if it is that worker's
      turn to learn the outcome. */
  datatype Turn = Turn(worker: nat, built: bool)

  ghost predicate Schedules(chunks: seq<seq<Row>>, schedule: seq<Turn>) {
    forall i :: 0 <= i < |schedule| ==> schedule[i].worker < |chunks|
  }

  /** The state any interleaving leads to. */
  ghost function Run(chunks: seq<seq<Row>>, schedule: seq<Turn>): (s: State)
    requires Contract(chunks) && Schedules(chunks, schedule)
    ensures Inv(chunks, s)
  {
    if |schedule| == 0 then
      InitOk(chunks);
      Init(chunks)
    else
      var before := Run(chunks, schedule[..|schedule| - 1]);
      var turn := schedule[|schedule| - 1];
      StepOk(chunks, before, turn.worker, turn.built);
      Step(chunks, before, turn.worker, turn.built)
  }

  // ---- History of the shared word ----------------------------------------------------

  /** Once a dictionary is published a worker finishes at most the row it is reading before it uses it,
      and only who had finished before keeps a map of its own. */
  ghost predicate UsesSoon(early: Worker, late: Worker) {
    && early.pos <= late.pos && (early.canonical ==> late.canonical)
    && match late.pc
       case Parsing => early.pc == Parsing && late.pos == early.pos
       case Checking => SameRow(early, late) || NextRow(early, late)
       case Claiming => early.pc == Claiming && late.pos == early.pos
       case Adopting(_) => SameRow(early, late) || NextRow(early, late)
       case Finishing => (early.pc == Parsing || early.pc == Finishing) && late.pos == early.pos
       case Finished => late.canonical || (early.pc == Finished && late.pos == early.pos)
       case Steady => late.canonical
       case _ => false
  }

  predicate SameRow(early: Worker, late: Worker) {
    late.pos == early.pos && (early.pc == Checking || (late.pc != Checking && (early.pc == Claiming || early.pc.Adopting?)))
  }

  predicate NextRow(early: Worker, late: Worker) { early.pc == Parsing && late.pos == early.pos + 1 }

  /** What a later state owes to an earlier one. */
  ghost predicate Follows(early: State, late: State) {
    && |early.workers| == |late.workers|
    && (early.word == Failed ==> late.word == Failed)
    && (early.word.Published? ==> late.word == early.word)
    && (early.word.Published? && early.word.owner < |early.workers| ==>
          late.workers[early.word.owner].table.dict == early.workers[early.word.owner].table.dict)
    && (early.word.Published? ==>
          forall w :: 0 <= w < |early.workers| ==> UsesSoon(early.workers[w], late.workers[w]))
    && (early.word != Null ==>
          forall w :: 0 <= w < |early.workers| && late.workers[w].pc == Claiming ==> early.workers[w].pc == Claiming)
    && (early.word == Building ==>
          late.word != Null &&
          (late.word == Building ==>
             forall w :: 0 <= w < |early.workers| && Builds(early.workers[w]) ==> Builds(late.workers[w])))
  }

  lemma StepFollows(chunks: seq<seq<Row>>, s: State, w: nat, built: bool)
    requires Contract(chunks) && Inv(chunks, s) && w < |chunks|
    ensures Follows(s, Step(chunks, s, w, built))
  {
    MoveOk(chunks, s, w, built);
    if s.word.Published? {
      MoveUsesSoon(chunks, s, w, built);
      FollowsItself(chunks, s);
    }
  }

  lemma MoveUsesSoon(chunks: seq<seq<Row>>, s: State, w: nat, built: bool)
    requires Contract(chunks) && Inv(chunks, s) && w < |chunks| && s.word.Published?
    ensures UsesSoon(s.workers[w], Move(chunks, s, w, built).0)
  {
    assert Agrees(s.word, s.workers[w]);
    MoveOk(chunks, s, w, built);
  }

  lemma FollowsItself(chunks: seq<seq<Row>>, s: State)
    requires Inv(chunks, s)
    ensures Follows(s, s)
  {
    if s.word.Published? {
      forall v | 0 <= v < |chunks| ensures UsesSoon(s.workers[v], s.workers[v]) {
        assert Agrees(s.word, s.workers[v]);
      }
    }
  }

  lemma FollowsTransitively(a: State, b: State, c: State)
    requires Follows(a, b) && Follows(b, c)
    ensures Follows(a, c)
  {
  }

  lemma TurnFollows(chunks: seq<seq<Row>>, early: seq<Turn>, turn: Turn, late: seq<Turn>)
    requires Contract(chunks) && Schedules(chunks, early) && turn.worker < |chunks| && late == early + [turn]
    ensures Schedules(chunks, late)
    ensures Follows(Run(chunks, early), Run(chunks, late))
  {
    assert late[..|late| - 1] == early;
    StepFollows(chunks, Run(chunks, early), turn.worker, turn.built);
  }

  ghost function After(chunks: seq<seq<Row>>, schedule: seq<Turn>, more: seq<Turn>, i: nat): State
    requires Contract(chunks) && Schedules(chunks, schedule) && Schedules(chunks, more) && i <= |more|
  {
    Run(chunks, schedule + more[..i])
  }

  lemma AfterFollows(chunks: seq<seq<Row>>, schedule: seq<Turn>, more: seq<Turn>, i: nat)
    requires Contract(chunks) && Schedules(chunks, schedule) && Schedules(chunks, more) && i < |more|
    ensures Follows(After(chunks, schedule, more, i), After(chunks, schedule, more, i + 1))
  {
    TurnFollows(chunks, schedule + more[..i], more[i], schedule + more[..i + 1]);
  }

  lemma {:induction false} AllFollow(chunks: seq<seq<Row>>, schedule: seq<Turn>, more: seq<Turn>, i: nat)
    requires Contract(chunks) && Schedules(chunks, schedule) && Schedules(chunks, more) && i <= |more|
    ensures Follows(After(chunks, schedule, more, 0), After(chunks, schedule, more, i))
  {
    if i > 0 {
      AllFollow(chunks, schedule, more, i - 1);
      AfterFollows(chunks, schedule, more, i - 1);
      FollowsTransitively(After(chunks, schedule, more, 0), After(chunks, schedule, more, i - 1),
                          After(chunks, schedule, more, i));
    } else {
      FollowsItself(chunks, After(chunks, schedule, more, 0));
    }
  }

  lemma LaterFollows(chunks: seq<seq<Row>>, schedule: seq<Turn>, more: seq<Turn>)
    requires Contract(chunks) && Schedules(chunks, schedule) && Schedules(chunks, more)
    ensures Schedules(chunks, schedule + more)
    ensures Follows(Run(chunks, schedule), Run(chunks, schedule + more))
  {
    AllFollow(chunks, schedule, more, |more|);
    assert schedule + more[..0] == schedule && more[..|more|] == more;
  }

  /** Once the word is taken nobody starts to claim it, and once a map or a failure is published it
      stays for ever; the published dictionary names every channel that can occur and never changes,
      although its owner keeps counting. */
  lemma PublicationIsFinal(chunks: seq<seq<Row>>, schedule: seq<Turn>, more: seq<Turn>)
    requires Contract(chunks) && Schedules(chunks, schedule) && Schedules(chunks, more)
    ensures Schedules(chunks, schedule + more)
    ensures Run(chunks, schedule).word != Null ==>
              forall w :: 0 <= w < |chunks| && Run(chunks, schedule + more).workers[w].pc == Claiming ==>
                            Run(chunks, schedule).workers[w].pc == Claiming
    ensures Run(chunks, schedule).word == Failed ==> Run(chunks, schedule + more).word == Failed
    ensures Run(chunks, schedule).word.Published? ==>
              var owner := Run(chunks, schedule).word.owner;
              && owner < |chunks|
              && Run(chunks, schedule + more).word == Published(owner)
              && Run(chunks, schedule + more).workers[owner].table.dict == Run(chunks, schedule).workers[owner].table.dict
              && forall channel :: channel in ChannelsOf(Flatten(chunks)) ==>
                   channel in Run(chunks, schedule).workers[owner].table.dict
  {
    LaterFollows(chunks, schedule, more);
    var s := Run(chunks, schedule);
    if s.word.Published? {
      PublishedDictionary(chunks, s);
      forall channel | channel in ChannelsOf(Flatten(chunks)) ensures channel in s.workers[s.word.owner].table.dict {
        CompleteDictionary(s.workers[s.word.owner].table.dict, ChannelsOf(Flatten(chunks)), channel);
      }
    }
  }

  /** Publication is used at once: from then on a worker completes at most the row it is reading under
      its own IDs, whatever the others do, and nobody who was still working ends with a map of its own. */
  lemma PublicationIsUsed(chunks: seq<seq<Row>>, schedule: seq<Turn>, more: seq<Turn>, w: nat)
    requires Contract(chunks) && Schedules(chunks, schedule) && Schedules(chunks, more) && w < |chunks|
    requires Run(chunks, schedule).word.Published?
    ensures Schedules(chunks, schedule + more)
    ensures UsedAtOnce(Run(chunks, schedule).workers[w], Run(chunks, schedule + more).workers[w])
  {
    LaterFollows(chunks, schedule, more);
    SoonIsAtOnce(Run(chunks, schedule).workers[w], Run(chunks, schedule + more).workers[w]);
  }

  ghost predicate UsedAtOnce(early: Worker, late: Worker) {
    && (late.pos > early.pos + 1 ==> late.canonical)
    && (late.pc == Parsing ==> early.pc == Parsing && late.pos == early.pos)
    && (late.pc == Finished && early.pc != Finished ==> late.canonical)
  }

  lemma SoonIsAtOnce(early: Worker, late: Worker)
    requires UsesSoon(early, late)
    ensures UsedAtOnce(early, late)
  {
  }

  /** In the whole run at most one worker ever builds an index. */
  lemma OneBuilder(chunks: seq<seq<Row>>, schedule: seq<Turn>, more: seq<Turn>, v: nat, w: nat)
    requires Contract(chunks) && Schedules(chunks, schedule) && Schedules(chunks, more)
    requires v < |chunks| && w < |chunks|
    requires Builds(Run(chunks, schedule).workers[v])
    requires Schedules(chunks, schedule + more) && Builds(Run(chunks, schedule + more).workers[w])
    ensures v == w
  {
    LaterFollows(chunks, schedule, more);
    var early, late := Run(chunks, schedule), Run(chunks, schedule + more);
    assert Agrees(early.word, early.workers[v]);
    assert Agrees(late.word, late.workers[w]);
    assert Builds(late.workers[v]);
  }

  /** Every worker that has adopted a dictionary uses the published one, and no worker ever
      fails to find a channel in it. */
  lemma EveryAdopterAgrees(chunks: seq<seq<Row>>, schedule: seq<Turn>, w: nat)
    requires Contract(chunks) && Schedules(chunks, schedule) && w < |chunks|
    ensures Run(chunks, schedule).workers[w].pc != Missed
    ensures Run(chunks, schedule).workers[w].canonical ==>
              Run(chunks, schedule).word.Published? && Run(chunks, schedule).word.owner < |chunks| &&
              Run(chunks, schedule).workers[w].table.dict ==
              Run(chunks, schedule).workers[Run(chunks, schedule).word.owner].table.dict
  {
    assert Agrees(Run(chunks, schedule).word, Run(chunks, schedule).workers[w]);
  }

  // ---- Wait-freedom ------------------------------------------------------------------

  /** How many steps a worker may still take, whatever the others do. */
  function Rank(me: Worker, rows: nat): nat
    requires me.pos <= rows
  {
    10 * (rows - me.pos) +
    match me.pc
    case Parsing => 2
    case Checking => 7
    case Claiming => 6
    case BuildingIndex => 5
    case Publishing(_) => 4
    case Adopting(_) => 3
    case Steady => 1
    case Finishing => 1
    case _ => 0
  }

  lemma MoveProgress(chunks: seq<seq<Row>>, s: State, w: nat, built: bool)
    requires Contract(chunks) && Inv(chunks, s) && w < |chunks|
    ensures Move(chunks, s, w, built).0.pos <= |chunks[w]|
    ensures s.workers[w].pc != Finished ==>
              Rank(Move(chunks, s, w, built).0, |chunks[w]|) < Rank(s.workers[w], |chunks[w]|)
    ensures s.workers[w].pc == Finished ==> Move(chunks, s, w, built).0.pc == Finished
  {
    var me := s.workers[w];
    assert Agrees(s.word, me);
    MoveOk(chunks, s, w, built);
    assert Agrees(Move(chunks, s, w, built).1, Move(chunks, s, w, built).0);
  }

  /** The turns of worker w in a schedule. */
  function Turns(schedule: seq<Turn>, w: nat): nat {
    if |schedule| == 0 then 0
    else Turns(schedule[..|schedule| - 1], w) + if schedule[|schedule| - 1].worker == w then 1 else 0
  }

  /** Turns that worker w may still need in state s; zero once it has finished. */
  ghost function Left(chunks: seq<seq<Row>>, s: State, w: nat): nat
    requires Inv(chunks, s) && w < |chunks|
  {
    Rank(s.workers[w], |chunks[w]|)
  }

  lemma StepLeft(chunks: seq<seq<Row>>, s: State, turn: Turn, w: nat)
    requires Contract(chunks) && Inv(chunks, s) && turn.worker < |chunks| && w < |chunks|
    ensures Inv(chunks, Step(chunks, s, turn.worker, turn.built))
    ensures Left(chunks, Step(chunks, s, turn.worker, turn.built), w) + (if turn.worker == w then 1 else 0) <=
            if Left(chunks, s, w) == 0 then 1 else Left(chunks, s, w)
    ensures Left(chunks, s, w) == 0 ==> Left(chunks, Step(chunks, s, turn.worker, turn.built), w) == 0
  {
    StepOk(chunks, s, turn.worker, turn.built);
    MoveProgress(chunks, s, turn.worker, turn.built);
    assert Agrees(s.word, s.workers[w]);
  }

  ghost function LeftAfter(chunks: seq<seq<Row>>, schedule: seq<Turn>, w: nat): nat
    requires Contract(chunks) && Schedules(chunks, schedule) && w < |chunks|
  {
    Left(chunks, Run(chunks, schedule), w)
  }

  lemma TurnLeft(chunks: seq<seq<Row>>, early: seq<Turn>, turn: Turn, late: seq<Turn>, w: nat)
    requires Contract(chunks) && Schedules(chunks, early) && turn.worker < |chunks| && late == early + [turn]
    requires w < |chunks|
    ensures Schedules(chunks, late)
    ensures LeftAfter(chunks, late, w) + (if turn.worker == w then 1 else 0) <=
            if LeftAfter(chunks, early, w) == 0 then 1 else LeftAfter(chunks, early, w)
    ensures LeftAfter(chunks, early, w) == 0 ==> LeftAfter(chunks, late, w) == 0
  {
    assert late[..|late| - 1] == early;
    StepLeft(chunks, Run(chunks, early), turn, w);
  }

  lemma StartLeft(chunks: seq<seq<Row>>, schedule: seq<Turn>, w: nat)
    requires Contract(chunks) && Schedules(chunks, schedule) && |schedule| == 0 && w < |chunks|
    ensures Turns(schedule, w) == 0 && LeftAfter(chunks, schedule, w) <= 10 * |chunks[w]| + 2
  {
  }

  lemma {:induction false} TurnsLeft(chunks: seq<seq<Row>>, schedule: seq<Turn>, w: nat)
    requires Contract(chunks) && Schedules(chunks, schedule) && w < |chunks|
    ensures LeftAfter(chunks, schedule, w) == 0 ||
            Turns(schedule, w) + LeftAfter(chunks, schedule, w) <= 10 * |chunks[w]| + 2
  {
    if |schedule| == 0 {
      StartLeft(chunks, schedule, w);
    } else {
      var front, last := schedule[..|schedule| - 1], schedule[|schedule| - 1];
      assert schedule == front + [last] && last.worker < |chunks|;
      TurnsLeft(chunks, front, w);
      TurnLeft(chunks, front, last, schedule, w);
    }
  }

  lemma NothingLeft(chunks: seq<seq<Row>>, s: State, w: nat)
    requires Contract(chunks) && Inv(chunks, s) && w < |chunks| && Left(chunks, s, w) == 0
    ensures s.workers[w].pc == Finished
  {
  }

  /** No worker ever waits for another: after 10n+2 turns of its own it has finished its n
      rows, however long the others stall, even in the middle of building the index. */
  lemma WaitFree(chunks: seq<seq<Row>>, schedule: seq<Turn>, w: nat)
    requires Contract(chunks) && Schedules(chunks, schedule) && w < |chunks|
    requires Turns(schedule, w) >= 10 * |chunks[w]| + 2
    ensures Run(chunks, schedule).workers[w].pc == Finished
  {
    TurnsLeft(chunks, schedule, w);
    NothingLeft(chunks, Run(chunks, schedule), w);
  }

  // ---- The merge after the join ------------------------------------------------------

  ghost predicate Joined(s: State) {
    forall w :: 0 <= w < |s.workers| ==> s.workers[w].pc == Finished
  }

  /** A worker's map under the shared IDs; a worker that finished before publication is
      re-keyed by the main thread. */
  ghost function Canonical(me: Worker, shared: seq<Key>): Table
    requires Shaped(me.table)
  {
    if me.canonical then me.table else Rekey(me.table, shared)
  }

  /** The maps the main thread merges. */
  ghost function Maps(s: State): (maps: seq<Table>)
    requires forall w :: 0 <= w < |s.workers| ==> Shaped(s.workers[w].table)
    requires s.word.Published? ==> s.word.owner < |s.workers|
    ensures |maps| == |s.workers|
  {
    seq(|s.workers|, w requires 0 <= w < |s.workers| => MapOf(s, w))
  }

  ghost function MapOf(s: State, w: nat): Table
    requires w < |s.workers| && Shaped(s.workers[w].table)
    requires s.word.Published? ==> s.word.owner < |s.workers|
  {
    match s.word
    case Published(owner) => Canonical(s.workers[w], s.workers[owner].table.dict)
    case _ => s.workers[w].table
  }

  lemma MapOfHolds(chunks: seq<seq<Row>>, s: State, w: nat)
    requires Contract(chunks) && Inv(chunks, s) && Joined(s) && w < |chunks|
    ensures Shaped(s.workers[w].table)
    ensures s.word.Published? ==> s.word.owner < |s.workers|
    ensures HoldsChunk(chunks[w], MapOf(s, w))
    ensures s.word.Published? ==> MapOf(s, w).dict == s.workers[s.word.owner].table.dict
    ensures s.word == Published(w) ==> MapOf(s, w) == s.workers[w].table
  {
    var me := s.workers[w];
    assert chunks[w][..|chunks[w]|] == chunks[w];
    assert me.queue == [];
    assert Agrees(s.word, me);
    forall channel: Key, month: nat ensures Lookup(me.table, channel, month) == At(chunks[w], channel, month) {
      AccountsLookup(chunks[w], me.table, channel, month);
    }
    if s.word.Published? && !me.canonical {
      PublishedDictionary(chunks, s);
      var shared := s.workers[s.word.owner].table.dict;
      forall id | 0 <= id < |me.table.dict| ensures me.table.dict[id] in shared {
        CompleteDictionary(shared, ChannelsOf(Flatten(chunks)), me.table.dict[id]);
      }
      RekeyKeepsGroups(me.table, shared, [], 0);
      forall channel: Key, month: nat
        ensures Lookup(Rekey(me.table, shared), channel, month) == At(chunks[w], channel, month)
      {
        RekeyKeepsGroups(me.table, shared, channel, month);
      }
    }
  }

  /** What main() merges: by position into the publisher's map, or by channel into the first
      worker's map if nothing was published. */
  ghost function Merged(word: Word, maps: seq<Table>, orders: seq<seq<nat>>): Table
    requires word.Published? ==> word.owner < |maps| && SameIds(maps, maps[word.owner].dict)
    requires !word.Published? ==> |maps| >= 1 && Orders(maps, orders) && forall w :: 0 <= w < |maps| ==> Shaped(maps[w])
  {
    match word
    case Published(owner) => MergedIds(maps, owner, |maps|)
    case _ => MergedByKey(maps, orders, |maps|)
  }

  lemma JoinedMaps(chunks: seq<seq<Row>>, s: State)
    requires Contract(chunks) && Inv(chunks, s) && Joined(s)
    ensures forall w :: 0 <= w < |s.workers| ==> Shaped(s.workers[w].table)
    ensures s.word.Published? ==> s.word.owner < |s.workers|
    ensures HoldChunks(chunks, Maps(s))
    ensures s.word.Published? ==> SameIds(Maps(s), Maps(s)[s.word.owner].dict)
  {
    forall w | 0 <= w < |chunks|
      ensures Shaped(s.workers[w].table)
      ensures s.word.Published? ==> s.word.owner < |s.workers|
      ensures HoldsChunk(chunks[w], MapOf(s, w))
      ensures s.word.Published? ==> MapOf(s, w).dict == s.workers[s.word.owner].table.dict
    {
      MapOfHolds(chunks, s, w);
    }
  }

  /** The merge of these joined workers holds exactly the sequential fold.  Without publication
      the main thread visits each worker's channels in some order of its hash table. */
  ghost predicate MergesExactly(chunks: seq<seq<Row>>, s: State, orders: seq<seq<nat>>) {
    && |s.workers| == |chunks| >= 1
    && (forall w :: 0 <= w < |s.workers| ==> Shaped(s.workers[w].table))
    && (s.word.Published? ==> s.word.owner < |s.workers|)
    && HoldChunks(chunks, Maps(s))
    && (s.word.Published? ==> SameIds(Maps(s), Maps(s)[s.word.owner].dict))
    && (s.word.Published? || Orders(Maps(s), orders) ==>
          HoldsChunk(Flatten(chunks), Merged(s.word, Maps(s), orders)))
  }

  lemma JoinedMerges(chunks: seq<seq<Row>>, s: State, orders: seq<seq<nat>>)
    requires Contract(chunks) && Inv(chunks, s) && Joined(s)
    ensures MergesExactly(chunks, s, orders)
  {
    JoinedMaps(chunks, s);
    if s.word.Published? {
      MergeByIdsIsComplete(chunks, Maps(s), s.word.owner);
    } else if Orders(Maps(s), orders) {
      MergeByKeyIsComplete(chunks, Maps(s), orders);
    }
  }

  /** For every input that keeps the published guarantees, every number of workers and every
      interleaving (publication at any row of any worker, never, or failed), the merged map
      holds for every channel and month exactly what the sequential fold of all rows gives. */
  lemma ParallelEqualsSequential(chunks: seq<seq<Row>>, schedule: seq<Turn>, orders: seq<seq<nat>>)
    requires Contract(chunks) && Schedules(chunks, schedule) && Joined(Run(chunks, schedule))
    ensures MergesExactly(chunks, Run(chunks, schedule), orders)
  {
    JoinedMerges(chunks, Run(chunks, schedule), orders);
  }
}
