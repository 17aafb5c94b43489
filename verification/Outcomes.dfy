/** What a run of the parallel analyzer decides: that a dictionary is announced whenever some worker
    has seen every channel, and whose and with what outcome. */
module Outcomes {
  import opened ReferenceFold
  import opened Collections
  import opened Cells
  import opened Tables
  import opened Queues
  import opened Publication
  import opened Runs

  // ---- A complete dictionary is never passed over ------------------------------------

  /** Behind its check of the shared word, or at the end of its rows. */
  predicate Past(me: Worker) { me.pc == Parsing || me.pc == Finishing || me.pc == Finished }

  /** While the word is null, nobody has gone on with a dictionary of every channel. */
  ghost predicate NonePassed(s: State) {
    s.word == Null ==>
      forall w :: 0 <= w < |s.workers| && Past(s.workers[w]) ==> |s.workers[w].table.dict| != CONTEST_CHANNELS
  }

  /** Until a worker re-keys its map, its dictionary names channels of its own rows only. */
  ghost predicate OwnChannels(rows: seq<Row>, me: Worker) {
    me.pos <= |rows| && (!me.canonical ==>
      forall id :: 0 <= id < |me.table.dict| ==> me.table.dict[id] in ChannelsOf(rows[..me.pos]))
  }

  /** A piece of the input that names every channel there can be. */
  ghost predicate Complete(rows: seq<Row>) { |ChannelsOf(rows)| == CONTEST_CHANNELS }

  ghost predicate SomeComplete(chunks: seq<seq<Row>>) { exists w :: 0 <= w < |chunks| && Complete(chunks[w]) }

  ghost predicate OnlyComplete(chunks: seq<seq<Row>>, s: State) {
    && |s.workers| == |chunks|
    && (forall w :: 0 <= w < |chunks| ==> OwnChannels(chunks[w], s.workers[w]))
    && (s.word != Null ==> SomeComplete(chunks))
  }

  lemma MovePasses(chunks: seq<seq<Row>>, s: State, w: nat, built: bool)
    requires Contract(chunks) && Inv(chunks, s) && w < |chunks| && NonePassed(s)
    ensures var (me, word) := Move(chunks, s, w, built);
            word == Null && Past(me) ==> s.word == Null && |me.table.dict| != CONTEST_CHANNELS
  {
    var me := s.workers[w];
    assert Agrees(s.word, me);
    MoveOk(chunks, s, w, built);
    if me.pc == Parsing && me.pos == |chunks[w]| {
      ChunkFits(chunks, w, me.pos);
      DrainAllAccounts(chunks[w][..me.pos], me.table, me.queue);
    }
  }

  lemma StepPasses(chunks: seq<seq<Row>>, s: State, w: nat, built: bool)
    requires Contract(chunks) && Inv(chunks, s) && w < |chunks| && NonePassed(s)
    ensures NonePassed(Step(chunks, s, w, built))
  {
    MovePasses(chunks, s, w, built);
    StepOk(chunks, s, w, built);
  }

  /** As long as the shared word is null, no worker has gone past a check, or ended, with a dictionary
      of every channel: the first to complete one claims the word. */
  lemma {:induction false} NullMeansIncomplete(chunks: seq<seq<Row>>, schedule: seq<Turn>)
    requires Contract(chunks) && Schedules(chunks, schedule)
    ensures NonePassed(Run(chunks, schedule))
  {
    if |schedule| > 0 {
      var front, last := schedule[..|schedule| - 1], schedule[|schedule| - 1];
      NullMeansIncomplete(chunks, front);
      StepPasses(chunks, Run(chunks, front), last.worker, last.built);
    }
  }

  // ---- Whether anything is announced -------------------------------------------------

  lemma ParseOwn(rows: seq<Row>, me: Worker)
    requires Shaped(me.table) && |me.queue| == 1 && PendingOk(me.queue[0], |me.table.dict|)
    requires me.pos < |rows| && RowOk(rows[me.pos]) && OwnChannels(rows, me)
    ensures OwnChannels(rows, ParseRow(me, rows[me.pos]))
  {
    var r, dict := rows[me.pos], ParseRow(me, rows[me.pos]).table.dict;
    assert dict == me.table.dict || dict == me.table.dict + [r.channel];
    var seen, after := rows[..me.pos], rows[..me.pos + 1];
    assert after[me.pos].channel in ChannelsOf(after);
    if !me.canonical {
      forall id | 0 <= id < |dict| ensures dict[id] in ChannelsOf(after) {
        if id < |me.table.dict| {
          var i :| 0 <= i < |seen| && seen[i].channel == dict[id];
          assert after[i] == seen[i];
        }
      }
    }
  }

  lemma MoveOwn(chunks: seq<seq<Row>>, s: State, w: nat, built: bool)
    requires Contract(chunks) && Inv(chunks, s) && w < |chunks| && OwnChannels(chunks[w], s.workers[w])
    ensures OwnChannels(chunks[w], Move(chunks, s, w, built).0)
  {
    var me := s.workers[w];
    assert Agrees(s.word, me);
    if me.pc == Parsing && me.pos < |chunks[w]| {
      RowsOk(chunks, w, me.pos);
      ParseOwn(chunks[w], me);
    } else {
      MoveKeepsNames(chunks, s, w, built);
    }
  }

  /** Nothing but a row of the discovery loop adds a channel to a worker's own map. */
  lemma MoveKeepsNames(chunks: seq<seq<Row>>, s: State, w: nat, built: bool)
    requires Contract(chunks) && Inv(chunks, s) && w < |chunks|
    requires s.workers[w].pc == Parsing ==> s.workers[w].pos == |chunks[w]|
    ensures var me := Move(chunks, s, w, built).0;
            me.pos <= |chunks[w]| && (me.canonical || (me.pos == s.workers[w].pos && me.table.dict == s.workers[w].table.dict))
    ensures Move(chunks, s, w, built).0.canonical || !s.workers[w].canonical
  {
    var me := s.workers[w];
    assert Agrees(s.word, me);
    MoveOk(chunks, s, w, built);
    if me.pc == Parsing {
      ChunkFits(chunks, w, me.pos);
      DrainAllAccounts(chunks[w][..me.pos], me.table, me.queue);
    }
  }

  /** Only a worker whose own piece names every channel takes the word. */
  lemma ClaimsComplete(chunks: seq<seq<Row>>, s: State, w: nat, built: bool)
    requires Contract(chunks) && Inv(chunks, s) && w < |chunks| && OwnChannels(chunks[w], s.workers[w])
    requires s.word == Null && Move(chunks, s, w, built).1 != Null
    ensures Complete(chunks[w])
  {
    var me := s.workers[w];
    assert Agrees(s.word, me);
    var seen := chunks[w][..me.pos];
    DistinctSize(me.table.dict, ChannelsOf(seen));
    SubsetSize(ChannelsOf(seen), ChannelsOf(chunks[w])) by {
      forall c | c in ChannelsOf(seen) ensures c in ChannelsOf(chunks[w]) {
        var i :| 0 <= i < |seen| && seen[i].channel == c;
        assert chunks[w][i] == seen[i];
      }
    }
    PieceInInput(chunks, w);
  }

  lemma PieceInInput(chunks: seq<seq<Row>>, w: nat)
    requires Contract(chunks) && w < |chunks|
    ensures ChannelsOf(chunks[w]) <= ChannelsOf(Flatten(chunks)) && |ChannelsOf(chunks[w])| <= CONTEST_CHANNELS
  {
    forall c | c in ChannelsOf(chunks[w]) ensures c in ChannelsOf(Flatten(chunks)) {
      var i :| 0 <= i < |chunks[w]| && chunks[w][i].channel == c;
      RowsOk(chunks, w, i);
    }
    SubsetSize(ChannelsOf(chunks[w]), ChannelsOf(Flatten(chunks)));
  }

  lemma StepOnlyComplete(chunks: seq<seq<Row>>, s: State, w: nat, built: bool)
    requires Contract(chunks) && Inv(chunks, s) && w < |chunks| && OnlyComplete(chunks, s)
    ensures OnlyComplete(chunks, Step(chunks, s, w, built))
  {
    MoveOwn(chunks, s, w, built);
    StepOk(chunks, s, w, built);
    if s.word == Null && Move(chunks, s, w, built).1 != Null {
      ClaimsComplete(chunks, s, w, built);
    }
  }

  lemma {:induction false} RunOnlyComplete(chunks: seq<seq<Row>>, schedule: seq<Turn>)
    requires Contract(chunks) && Schedules(chunks, schedule)
    ensures OnlyComplete(chunks, Run(chunks, schedule))
  {
    if |schedule| > 0 {
      var front, last := schedule[..|schedule| - 1], schedule[|schedule| - 1];
      RunOnlyComplete(chunks, front);
      StepOnlyComplete(chunks, Run(chunks, front), last.worker, last.built);
    }
  }

  /** A finished worker's dictionary names every channel of its rows. */
  lemma FinishedNames(chunks: seq<seq<Row>>, s: State, w: nat)
    requires Contract(chunks) && Inv(chunks, s) && w < |chunks| && s.workers[w].pc == Finished
    ensures Complete(chunks[w]) ==> |s.workers[w].table.dict| == CONTEST_CHANNELS
  {
    var me, rows := s.workers[w], chunks[w];
    assert rows[..|rows|] == rows;
    var names := set id | 0 <= id < |me.table.dict| :: me.table.dict[id];
    forall c | c in ChannelsOf(rows) ensures c in names {
      var i :| 0 <= i < |rows| && rows[i].channel == c;
      RowsOk(chunks, w, i);
      RowCounted(rows, i);
      assert c in me.table.dict;
    }
    SubsetSize(ChannelsOf(rows), names);
    MembersSize(me.table.dict, names);
    DistinctSize(me.table.dict, ChannelsOf(Flatten(chunks)));
  }

  lemma {:induction false} RowCounted(rows: seq<Row>, i: nat)
    requires i < |rows|
    ensures At(rows, rows[i].channel, rows[i].month).Some?
  {
    AtSnoc(rows[..|rows| - 1], rows[|rows| - 1], rows[i].channel, rows[i].month);
    assert rows == rows[..|rows| - 1] + [rows[|rows| - 1]];
    if i < |rows| - 1 {
      RowCounted(rows[..|rows| - 1], i);
    }
  }

  lemma JoinedAnnounces(chunks: seq<seq<Row>>, s: State)
    requires Contract(chunks) && Inv(chunks, s) && Joined(s) && NonePassed(s) && OnlyComplete(chunks, s)
    ensures s.word.Null? <==> !SomeComplete(chunks)
    ensures s.word != Building
  {
    if SomeComplete(chunks) {
      var w :| 0 <= w < |chunks| && Complete(chunks[w]);
      FinishedNames(chunks, s, w);
      assert Past(s.workers[w]);
    }
  }

  /** Once all workers are joined, the word has been taken if and only if some worker's piece names
      every channel of the contest. */
  lemma AnnouncedExactly(chunks: seq<seq<Row>>, schedule: seq<Turn>)
    requires Contract(chunks) && Schedules(chunks, schedule) && Joined(Run(chunks, schedule))
    ensures Run(chunks, schedule).word.Null? <==> !SomeComplete(chunks)
    ensures Run(chunks, schedule).word != Building
  {
    NullMeansIncomplete(chunks, schedule);
    RunOnlyComplete(chunks, schedule);
    JoinedAnnounces(chunks, Run(chunks, schedule));
  }

  // ---- What is announced -------------------------------------------------------------

  ghost predicate IsBuilding(chunks: seq<seq<Row>>, schedule: seq<Turn>, w: nat)
    requires Contract(chunks) && Schedules(chunks, schedule)
  {
    w < |chunks| && Run(chunks, schedule).workers[w].pc == BuildingIndex
  }

  /** In some turn of the schedule worker w, inside build_mph, learned this outcome. */
  ghost predicate Learned(chunks: seq<seq<Row>>, schedule: seq<Turn>, w: nat, built: bool)
    requires Contract(chunks) && Schedules(chunks, schedule)
  {
    |schedule| > 0 &&
    var front := schedule[..|schedule| - 1];
    Learned(chunks, front, w, built) || (schedule[|schedule| - 1] == Turn(w, built) && IsBuilding(chunks, front, w))
  }

  /** The worker is about to announce this outcome, or has announced it. */
  ghost predicate Announces(s: State, w: nat, built: bool) {
    w < |s.workers| &&
    (s.workers[w].pc == Publishing(built) || s.word == (if built then Published(w) else Failed))
  }

  lemma StepAnnounces(chunks: seq<seq<Row>>, s: State, turn: Turn, w: nat, built: bool)
    requires Contract(chunks) && Inv(chunks, s) && turn.worker < |chunks| && w < |chunks|
    requires Announces(s, w, built) || (turn == Turn(w, built) && s.workers[w].pc == BuildingIndex)
    ensures Announces(Step(chunks, s, turn.worker, turn.built), w, built)
  {
    StepOk(chunks, s, turn.worker, turn.built);
  }

  lemma {:induction false} LearnedIsAnnounced(chunks: seq<seq<Row>>, schedule: seq<Turn>, w: nat, built: bool)
    requires Contract(chunks) && Schedules(chunks, schedule) && w < |chunks| && Learned(chunks, schedule, w, built)
    ensures Announces(Run(chunks, schedule), w, built)
  {
    var front, last := schedule[..|schedule| - 1], schedule[|schedule| - 1];
    if Learned(chunks, front, w, built) {
      LearnedIsAnnounced(chunks, front, w, built);
    }
    StepAnnounces(chunks, Run(chunks, front), last, w, built);
  }

  /** Whatever is being or has been announced in state s was learned. */
  ghost predicate AllLearned(chunks: seq<seq<Row>>, schedule: seq<Turn>, s: State)
    requires Contract(chunks) && Schedules(chunks, schedule)
  {
    && (forall w, built :: 0 <= w < |s.workers| && s.workers[w].pc == Publishing(built) ==>
          Learned(chunks, schedule, w, built))
    && (s.word.Published? ==> Learned(chunks, schedule, s.word.owner, true))
    && (s.word == Failed ==> SomeoneFailed(chunks, schedule))
  }

  ghost predicate SomeoneFailed(chunks: seq<seq<Row>>, schedule: seq<Turn>)
    requires Contract(chunks) && Schedules(chunks, schedule)
  {
    exists w: nat :: Learned(chunks, schedule, w, false)
  }

  /** What one step may newly announce. */
  lemma StepLearns(chunks: seq<seq<Row>>, s: State, turn: Turn)
    requires Contract(chunks) && Inv(chunks, s) && turn.worker < |chunks|
    ensures var t := Step(chunks, s, turn.worker, turn.built);
            && |t.workers| == |s.workers|
            && (forall w, built :: 0 <= w < |t.workers| && t.workers[w].pc == Publishing(built) ==>
                  s.workers[w].pc == Publishing(built) || (s.workers[w].pc == BuildingIndex && turn == Turn(w, built)))
            && (t.word.Published? ==> t.word == s.word || (s.workers[turn.worker].pc == Publishing(true) &&
                                                           t.word == Published(turn.worker)))
            && (t.word == Failed ==> s.word == Failed || s.workers[turn.worker].pc == Publishing(false))
  {
    var me := s.workers[turn.worker];
    assert Agrees(s.word, me);
    MoveOk(chunks, s, turn.worker, turn.built);
  }

  lemma TurnLearned(chunks: seq<seq<Row>>, early: seq<Turn>, turn: Turn, late: seq<Turn>, w: nat, built: bool)
    requires Contract(chunks) && Schedules(chunks, early) && turn.worker < |chunks| && late == early + [turn]
    requires Learned(chunks, early, w, built) || (turn == Turn(w, built) && IsBuilding(chunks, early, w))
    ensures Schedules(chunks, late) && Learned(chunks, late, w, built)
  {
    assert late[..|late| - 1] == early;
  }

  /** State s is that after this schedule, as far as it builds. */
  ghost predicate Reached(chunks: seq<seq<Row>>, schedule: seq<Turn>, s: State)
    requires Contract(chunks) && Schedules(chunks, schedule)
  {
    Inv(chunks, s) && forall w: nat :: w < |chunks| && s.workers[w].pc == BuildingIndex ==> IsBuilding(chunks, schedule, w)
  }

  lemma StepOutcome(chunks: seq<seq<Row>>, early: seq<Turn>, turn: Turn, late: seq<Turn>, s: State, w: nat, built: bool)
    requires Contract(chunks) && Schedules(chunks, early) && turn.worker < |chunks| && late == early + [turn]
    requires Reached(chunks, early, s) && w < |chunks|
    requires s.workers[w].pc == Publishing(built) ==> Learned(chunks, early, w, built)
    requires Step(chunks, s, turn.worker, turn.built).workers[w].pc == Publishing(built)
    ensures Schedules(chunks, late) && Learned(chunks, late, w, built)
  {
    StepLearns(chunks, s, turn);
    TurnLearned(chunks, early, turn, late, w, built);
  }

  lemma StepWord(chunks: seq<seq<Row>>, early: seq<Turn>, turn: Turn, late: seq<Turn>, s: State)
    requires Contract(chunks) && Schedules(chunks, early) && turn.worker < |chunks| && late == early + [turn]
    requires Inv(chunks, s) && AllLearned(chunks, early, s)
    ensures Schedules(chunks, late)
    ensures var word := Step(chunks, s, turn.worker, turn.built).word;
            && (word.Published? ==> Learned(chunks, late, word.owner, true))
            && (word == Failed ==> SomeoneFailed(chunks, late))
  {
    var word := Step(chunks, s, turn.worker, turn.built).word;
    StepLearns(chunks, s, turn);
    if word.Published? {
      TurnLearned(chunks, early, turn, late, word.owner, true);
    }
    if word == Failed {
      var w: nat := turn.worker;
      if s.word == Failed {
        w :| Learned(chunks, early, w, false);
      }
      TurnLearned(chunks, early, turn, late, w, false);
    }
  }

  lemma StepAllLearned(chunks: seq<seq<Row>>, early: seq<Turn>, turn: Turn, late: seq<Turn>, s: State, t: State)
    requires Contract(chunks) && Schedules(chunks, early) && turn.worker < |chunks| && late == early + [turn]
    requires Reached(chunks, early, s) && t == Step(chunks, s, turn.worker, turn.built) && AllLearned(chunks, early, s)
    ensures Schedules(chunks, late) && AllLearned(chunks, late, t)
  {
    StepWord(chunks, early, turn, late, s);
    forall w, built | 0 <= w < |t.workers| && t.workers[w].pc == Publishing(built)
      ensures Learned(chunks, late, w, built)
    {
      StepOutcome(chunks, early, turn, late, s, w, built);
    }
  }

  lemma TurnAllLearned(chunks: seq<seq<Row>>, early: seq<Turn>, turn: Turn, late: seq<Turn>)
    requires Contract(chunks) && Schedules(chunks, early) && turn.worker < |chunks| && late == early + [turn]
    requires AllLearned(chunks, early, Run(chunks, early))
    ensures Schedules(chunks, late) && AllLearned(chunks, late, Run(chunks, late))
  {
    assert late[..|late| - 1] == early;
    StepAllLearned(chunks, early, turn, late, Run(chunks, early), Run(chunks, late));
  }

  ghost predicate RunLearned(chunks: seq<seq<Row>>, schedule: seq<Turn>)
    requires Contract(chunks) && Schedules(chunks, schedule)
  {
    AllLearned(chunks, schedule, Run(chunks, schedule))
  }

  lemma NothingLearned(chunks: seq<seq<Row>>, schedule: seq<Turn>)
    requires Contract(chunks) && Schedules(chunks, schedule) && |schedule| == 0
    ensures RunLearned(chunks, schedule)
  {
  }

  lemma {:induction false} RunAllLearned(chunks: seq<seq<Row>>, schedule: seq<Turn>)
    requires Contract(chunks) && Schedules(chunks, schedule)
    ensures RunLearned(chunks, schedule)
  {
    if |schedule| == 0 {
      NothingLearned(chunks, schedule);
    } else {
      var front, last := schedule[..|schedule| - 1], schedule[|schedule| - 1];
      assert schedule == front + [last];
      RunAllLearned(chunks, front);
      TurnAllLearned(chunks, front, last, schedule);
    }
  }

  lemma {:induction false} LearnerExists(chunks: seq<seq<Row>>, schedule: seq<Turn>, w: nat, built: bool)
    requires Contract(chunks) && Schedules(chunks, schedule) && Learned(chunks, schedule, w, built)
    ensures w < |chunks|
  {
    if Learned(chunks, schedule[..|schedule| - 1], w, built) {
      LearnerExists(chunks, schedule[..|schedule| - 1], w, built);
    }
  }

  lemma JoinedLearned(chunks: seq<seq<Row>>, schedule: seq<Turn>, w: nat, built: bool)
    requires Contract(chunks) && Schedules(chunks, schedule) && Joined(Run(chunks, schedule))
    requires Learned(chunks, schedule, w, built)
    ensures Run(chunks, schedule).word == if built then Published(w) else Failed
  {
    LearnerExists(chunks, schedule, w, built);
    LearnedIsAnnounced(chunks, schedule, w, built);
  }

  /** The word says what build_mph said: after the join it holds a worker's map, or failure, exactly
      when this worker, or some worker, learned that outcome in a turn of its own. */
  lemma AnnouncedAsBuilt(chunks: seq<seq<Row>>, schedule: seq<Turn>)
    requires Contract(chunks) && Schedules(chunks, schedule) && Joined(Run(chunks, schedule))
    ensures forall owner: nat :: Run(chunks, schedule).word == Published(owner) <==> Learned(chunks, schedule, owner, true)
    ensures Run(chunks, schedule).word == Failed <==> SomeoneFailed(chunks, schedule)
  {
    RunAllLearned(chunks, schedule);
    forall w: nat, built: bool | Learned(chunks, schedule, w, built)
      ensures Run(chunks, schedule).word == (if built then Published(w) else Failed)
    {
      JoinedLearned(chunks, schedule, w, built);
    }
  }
}
