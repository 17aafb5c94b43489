/** Why the browser's replay over all accepted submissions equals the server's private board, which
    ranks each user's maintained representative, and exactly when. */
module Replay {
  import opened ReferenceFold
  import opened Collections
  import opened Queue
  import opened Leaderboard
  import opened Frame
  import Sorting

  // ---- The two queries ---------------------------------------------------------------

  /** The row of the board's query for one user: the representative, if it may be shown. */
  ghost predicate OnBoard(s: State, config: Config, admins: set<User>, language: Option<string>, user: User, r: Record) {
    && user in s.users && s.users[user].Some? && s.users[user].value in s.rows && user !in admins
    && Eligible(s.rows, config, s.rows[s.users[user].value].user, s.users[user].value)
    && (language.Some? ==> s.rows[s.users[user].value].language == language)
    && r == RecordOf(s.users[user].value, s.rows[s.users[user].value])
  }

  /** leaderboardRows, ordered by start. */
  ghost predicate BoardRows(s: State, config: Config, admins: set<User>, language: Option<string>, rows: seq<Record>) {
    && DistinctIds(rows) && ByStart(rows)
    && forall r :: r in rows <==> exists user :: OnBoard(s, config, admins, language, user, r)
  }

  ghost predicate ByStart(rows: seq<Record>) {
    forall i, j :: 0 <= i < j < |rows| ==> rows[i].startedAt <= rows[j].startedAt
  }

  predicate Replayed(s: State, config: Config, admins: set<User>, r: Record) {
    && r.id in s.rows && s.rows[r.id].publicVerdict == Some(Accepted) && s.rows[r.id].startedAt <= config.contestEnd
    && r.user !in admins && r == RecordOf(r.id, s.rows[r.id])
  }

  /** leaderboardReplay: all accepted submissions in time, ordered by start and ID. */
  ghost predicate ReplayRows(s: State, config: Config, admins: set<User>, submissions: seq<Record>) {
    && (forall r :: r in submissions <==> Replayed(s, config, admins, r))
    && forall i, j :: 0 <= i < j < |submissions| ==>
         submissions[i].startedAt < submissions[j].startedAt ||
         (submissions[i].startedAt == submissions[j].startedAt && submissions[i].id < submissions[j].id)
  }

  /** What an entry shows of a submission. */
  ghost predicate ShowsRow(e: Entry, board: Board, row: Submission) {
    var (verdict, score) :=
      match board
      case PublicBoard => (row.publicVerdict, row.publicScore)
      case PrivateBoard => (row.privateVerdict, row.privateScore);
    && e.user == row.user && e.language == row.language && e.submittedAt == row.startedAt / 1000 && e.score == score
    && (e.rank.Some? <==> row.disqualified.None? && verdict == Some(Accepted) && score.Some?)
    && e.verdict == if row.disqualified.Some? then IsDisqualified
                    else if verdict.Some? then Of(verdict.value) else InfrastructureError
  }

  /** A user's greatest eligible submission, which the board is asked for. */
  ghost predicate Asked(s: State, config: Config, admins: set<User>, language: Option<string>, user: User, id: Id) {
    && user in s.users && user !in admins && IsRepresentative(s.rows, config, user, Some(id))
    && (language.Some? ==> s.rows[id].language == language)
  }

  lemma RowIsAsked(s: State, config: Config, admins: set<User>, language: Option<string>, rows: seq<Record>, r: Record)
    requires Inv(s, config) && BoardRows(s, config, admins, language, rows) && r in rows
    ensures r.id in s.rows && r == RecordOf(r.id, s.rows[r.id]) && Asked(s, config, admins, language, r.user, r.id)
  {
    var user :| OnBoard(s, config, admins, language, user, r);
    assert IsRepresentative(s.rows, config, user, s.users[user]);
  }

  lemma AskedIsRow(s: State, config: Config, admins: set<User>, language: Option<string>, rows: seq<Record>, user: User,
                   id: Id)
    requires Inv(s, config) && BoardRows(s, config, admins, language, rows) && Asked(s, config, admins, language, user, id)
    ensures id in s.rows && RecordOf(id, s.rows[id]) in rows
  {
    RepresentativeIsUnique(s.rows, config, user, Some(id), s.users[user]);
    assert OnBoard(s, config, admins, language, user, RecordOf(id, s.rows[id]));
  }

  lemma EntryShowsTables(s: State, config: Config, admins: set<User>, language: Option<string>, rows: seq<Record>,
                         board: Board, published: bool, e: Entry)
    requires Inv(s, config) && BoardRows(s, config, admins, language, rows) && SaysSome(rows, board, published, e)
    ensures e.id in s.rows && ShowsRow(e, board, s.rows[e.id]) && Asked(s, config, admins, language, e.user, e.id)
  {
    var r :| r in rows && EntrySays(rows, board, published, r, e);
    RowIsAsked(s, config, admins, language, rows, r);
  }

  /** Either board over the rows of its query shows every user's greatest eligible submission, in the
      language asked for, as the tables have it, and nothing else. */
  lemma BoardShowsTables(s: State, config: Config, admins: set<User>, language: Option<string>, rows: seq<Record>,
                         board: Board, published: bool, ranked: seq<Entry>, others: seq<Entry>)
    requires Inv(s, config) && BoardRows(s, config, admins, language, rows)
    requires BoardSays(rows, board, published, ranked, others)
    ensures forall e :: e in ranked || e in others ==>
              e.id in s.rows && ShowsRow(e, board, s.rows[e.id]) && Asked(s, config, admins, language, e.user, e.id)
    ensures forall user, id :: Asked(s, config, admins, language, user, id) ==>
              exists e :: (e in ranked || e in others) && e.id == id
  {
    forall e | e in ranked || e in others
      ensures e.id in s.rows && ShowsRow(e, board, s.rows[e.id]) && Asked(s, config, admins, language, e.user, e.id)
    {
      EntryShowsTables(s, config, admins, language, rows, board, published, e);
    }
    forall user, id | Asked(s, config, admins, language, user, id)
      ensures exists e :: (e in ranked || e in others) && e.id == id
    {
      AskedIsRow(s, config, admins, language, rows, user, id);
      var r := RecordOf(id, s.rows[id]);
      var e :| e in (if RankedOn(r, board) then ranked else others) && EntrySays(rows, board, published, r, e);
    }
  }

  /** The last submission of a user in the replay is the representative. */
  lemma LatestIsRepresentative(s: State, config: Config, admins: set<User>, submissions: seq<Record>, user: User)
    requires Inv(s, config) && ReplayRows(s, config, admins, submissions)
    requires user in LatestOf(submissions).values
    ensures user in s.users && s.users[user].Some? && s.users[user].value in s.rows && user !in admins
    ensures LatestOf(submissions).values[user] == RecordOf(s.users[user].value, s.rows[s.users[user].value])
  {
    var k := LatestMeaning(submissions, user);
    ReplayedIsEligible(s, config, admins, submissions, k);
    var rep := RepresentativeIsLater(s, config, user, submissions[k].id);
    var i := EligibleIsReplayed(s, config, admins, submissions, user, rep);
    ReplayedIsEligible(s, config, admins, submissions, i);
  }

  lemma RepresentativeIsLater(s: State, config: Config, user: User, id: Id) returns (rep: Id)
    requires Inv(s, config) && Eligible(s.rows, config, user, id)
    ensures user in s.users && s.users[user] == Some(rep) && Eligible(s.rows, config, user, rep)
    ensures rep == id || Earlier(s.rows, id, rep)
  {
    assert s.rows[id].user in s.users;
    assert IsRepresentative(s.rows, config, user, s.users[user]);
    rep := s.users[user].value;
  }

  lemma ReplayedIsEligible(s: State, config: Config, admins: set<User>, submissions: seq<Record>, k: nat)
    requires ReplayRows(s, config, admins, submissions) && k < |submissions|
    ensures var r := submissions[k];
            r.user !in admins && Eligible(s.rows, config, r.user, r.id) && r == RecordOf(r.id, s.rows[r.id])
  {
    assert submissions[k] in submissions;
  }

  lemma EligibleIsReplayed(s: State, config: Config, admins: set<User>, submissions: seq<Record>, user: User, id: Id)
    returns (i: nat)
    requires ReplayRows(s, config, admins, submissions) && Eligible(s.rows, config, user, id) && user !in admins
    ensures i < |submissions| && submissions[i] == RecordOf(id, s.rows[id])
    ensures Counts(submissions[i]) && submissions[i].user == user
  {
    var r := RecordOf(id, s.rows[id]);
    assert Replayed(s, config, admins, r);
    assert r in submissions;
    i :| 0 <= i < |submissions| && submissions[i] == r;
  }

  /** A representative that may be shown appears in the replay, and last for its user. */
  lemma RepresentativeIsLatest(s: State, config: Config, admins: set<User>, submissions: seq<Record>,
                               language: Option<string>, user: User, r: Record)
    requires Inv(s, config) && ReplayRows(s, config, admins, submissions)
    requires OnBoard(s, config, admins, language, user, r)
    ensures user in LatestOf(submissions).values && LatestOf(submissions).values[user] == r
  {
    assert IsRepresentative(s.rows, config, user, s.users[user]);
    assert r in submissions;
    var i :| 0 <= i < |submissions| && submissions[i] == r;
    var k := LatestMeaning(submissions, user);
    assert Counts(submissions[i]) && submissions[i].user == user;
    LatestIsRepresentative(s, config, admins, submissions, user);
  }

  // ---- The same ranking --------------------------------------------------------------

  /** Scores are digit strings, as their column and the runner's schema demand. */
  ghost predicate ScoresOk(s: State) {
    forall id :: id in s.rows && s.rows[id].privateScore.Some? ==> DigitString(s.rows[id].privateScore.value)
  }

  /** Both sides rank the same submissions. */
  lemma SameSubmissions(s: State, config: Config, admins: set<User>, language: Option<string>, rows: seq<Record>,
                        submissions: seq<Record>, r: Record)
    requires Inv(s, config)
    requires BoardRows(s, config, admins, language, rows) && ReplayRows(s, config, admins, submissions)
    ensures r in RankableOnly(rows) <==> r in ShownIn(submissions, language)
  {
    var latest := LatestOf(submissions);
    RankableMembers(rows);
    LatestIsOk(submissions);
    ShownMembers(latest.keys, latest.values, language, r);
    if r in RankableOnly(rows) {
      var user :| OnBoard(s, config, admins, language, user, r);
      RepresentativeIsLatest(s, config, admins, submissions, language, user, r);
      assert RowOk(s.rows[r.id]);
      assert user in latest.keys;
    }
    if r in ShownIn(submissions, language) {
      var user :| user in latest.keys && latest.values[user] == r && Shown(r, language);
      LatestIsRepresentative(s, config, admins, submissions, user);
      assert IsRepresentative(s.rows, config, user, s.users[user]);
      assert OnBoard(s, config, admins, language, user, r);
    }
  }

  /** No two ranked submissions share score and millisecond. */
  ghost predicate DistinctPairs(rows: seq<Record>) {
    forall a, b :: a in rows && b in rows && a != b ==> Score(a) != Score(b) || Millis(a) != Millis(b)
  }

  /** On such submissions both comparisons are the same strict order. */
  lemma SameOrder(rows: seq<Record>)
    requires DistinctPairs(rows) && forall r :: r in rows ==> Rankable(r) && DigitString(r.privateScore.value)
    ensures Sorting.Orders(ReplayLess, rows)
    ensures forall a, b :: a in rows && b in rows ==> BoardLess(a, b) == ReplayLess(a, b)
  {
    forall a, b | a in rows && b in rows ensures BoardLess(a, b) == ReplayLess(a, b) {
      CompareDecimalIsNumeric(a.privateScore.value, b.privateScore.value);
    }
  }

  lemma SameSort(a: seq<Record>, b: seq<Record>)
    requires Sorting.Members(a, b) && Distinct(a) && Distinct(b)
    requires DistinctPairs(a) && forall r :: r in a ==> Rankable(r) && DigitString(r.privateScore.value)
    ensures Sorting.StableSort(a, BoardLess) == Sorting.StableSort(b, ReplayLess)
  {
    SameOrder(a);
    assert Sorting.Orders(BoardLess, a);
    Sorting.SortOrdered(a, BoardLess, a);
    Sorting.SortOrdered(b, ReplayLess, a);
    Sorting.SortMembers(a, BoardLess);
    Sorting.SortMembers(b, ReplayLess);
    var x, y := Sorting.StableSort(a, BoardLess), Sorting.StableSort(b, ReplayLess);
    forall i, j | 0 <= i < j < |x| ensures ReplayLess(x[i], x[j]) {
      assert x[i] in x && x[j] in x;
    }
    Sorting.OrderedIsUnique(x, y, ReplayLess, a);
  }

  lemma PrivateArrangement(rows: seq<Record>)
    ensures Arranged(rows, PrivateBoard) == Sorting.StableSort(RankableOnly(rows), BoardLess)
  {
    assert JudgedAll(rows, PrivateBoard) == rows;
  }

  lemma SamePlaced(sorted: seq<Record>, first: Extras, second: Extras)
    requires forall id: Id :: first(id) == second(id)
    ensures Placed(sorted, first) == Placed(sorted, second)
  {
    forall i | 0 <= i < |sorted| ensures Placed(sorted, first)[i] == Placed(sorted, second)[i] {
      assert first(sorted[i].id) == second(sorted[i].id);
    }
  }

  /** Before the private results are published, the replay over all submissions shows exactly the
      ranked list of the private board, for every language filter, whenever no two ranked submissions
      tie. */
  lemma ReplayEqualsBoard(s: State, config: Config, admins: set<User>, language: Option<string>, rows: seq<Record>,
                          submissions: seq<Record>, extras: Extras)
    requires Inv(s, config) && ScoresOk(s)
    requires BoardRows(s, config, admins, language, rows) && ReplayRows(s, config, admins, submissions)
    requires DistinctPairs(RankableOnly(rows)) && Publishes(rows, false, extras)
    ensures Placed(Arranged(rows, PrivateBoard), extras) == ReplayList(submissions, language)
  {
    SameMembers(s, config, admins, language, rows, submissions);
    SameSort(RankableOnly(rows), ShownIn(submissions, language));
    PrivateArrangement(rows);
    SamePlaced(Arranged(rows, PrivateBoard), extras, NoExtras());
  }

  lemma PlacedMember(list: seq<Record>, less: (Record, Record) -> bool, extras: Extras, e: Entry) returns (r: Record)
    requires e in Placed(Sorting.StableSort(list, less), extras)
    ensures r in list && r.id == e.id
  {
    var sorted := Sorting.StableSort(list, less);
    Sorting.SortMembers(list, less);
    var i :| 0 <= i < |sorted| && Placed(sorted, extras)[i] == e;
    r := sorted[i];
    assert r in sorted;
  }

  lemma RankedIsInOrder(s: State, config: Config, admins: set<User>, language: Option<string>, rows: seq<Record>, r: Record)
    requires BoardRows(s, config, admins, language, rows) && r in RankableOnly(rows)
    ensures r.id in s.rows && s.rows[r.id].disqualified.None?
  {
    RankableMembers(rows);
    var user :| OnBoard(s, config, admins, language, user, r);
  }

  /** Once disqualified, a submission is ranked neither on the board nor in the replay, after
      any further steps. */
  lemma DisqualifiedIsUnranked(config: Config, steps: seq<Step>, more: seq<Step>, id: Id, admins: set<User>,
                               language: Option<string>, rows: seq<Record>, submissions: seq<Record>, extras: Extras,
                               e: Entry)
    requires id in Run(config, steps).rows && Run(config, steps).rows[id].disqualified.Some?
    requires BoardRows(Run(config, steps + more), config, admins, language, rows)
    requires ReplayRows(Run(config, steps + more), config, admins, submissions)
    requires e in Placed(Arranged(rows, PrivateBoard), extras) || e in ReplayList(submissions, language)
    ensures e.id != id
  {
    RunKeeps(config, steps + more);
    DisqualifiedForever(config, steps, more, id);
    var r: Record;
    PrivateArrangement(rows);
    if e in Placed(Arranged(rows, PrivateBoard), extras) {
      r := PlacedMember(RankableOnly(rows), BoardLess, extras, e);
    } else {
      r := PlacedMember(ShownIn(submissions, language), ReplayLess, NoExtras(), e);
      SameSubmissions(Run(config, steps + more), config, admins, language, rows, submissions, r);
    }
    RankedIsInOrder(Run(config, steps + more), config, admins, language, rows, r);
  }

  // ---- Ties --------------------------------------------------------------------------

  predicate Tied(a: Record, b: Record) { Score(a) == Score(b) && Millis(a) == Millis(b) }

  /** Both comparisons rank by some key, and differ on ties only. */
  lemma BothWeak(rows: seq<Record>)
    requires AllScored(rows)
    ensures Sorting.WeaklyOrders(BoardLess, rows) && Sorting.WeaklyOrders(ReplayLess, rows)
    ensures forall a, b :: a in rows && b in rows ==>
              if Tied(a, b) then !ReplayLess(a, b) && (BoardLess(a, b) <==> a.startedAt < b.startedAt)
              else BoardLess(a, b) == ReplayLess(a, b)
    ensures forall a, b :: a in rows && b in rows && !Tied(a, b) ==> ReplayLess(a, b) || ReplayLess(b, a)
  {
    forall a, b | a in rows && b in rows
      ensures BoardLess(a, b) <==> Score(a) < Score(b) || (Score(a) == Score(b) && a.startedAt < b.startedAt)
    {
      CompareDecimalIsNumeric(a.privateScore.value, b.privateScore.value);
    }
  }

  /** Where the browser's list has a before b, so has the server's order: by microseconds, then as
      its rows come. */
  ghost predicate TiesInPlace(ranked: seq<Record>, shown: seq<Record>) {
    forall a, b :: a in ranked && b in ranked && Tied(a, b) ==>
      (Sorting.Before(shown, a, b) <==>
       a.startedAt < b.startedAt || (a.startedAt == b.startedAt && Sorting.Before(ranked, a, b)))
  }

  lemma SortsTie(ranked: seq<Record>, shown: seq<Record>)
    requires Sorting.Members(ranked, shown) && Distinct(ranked) && Distinct(shown) && AllScored(ranked)
    ensures Sorting.StableSort(ranked, BoardLess) == Sorting.StableSort(shown, ReplayLess) <==> TiesInPlace(ranked, shown)
  {
    BothWeak(ranked);
    BothWeak(shown);
    Sorting.SortsAgree(ranked, BoardLess, shown, ReplayLess);
    forall x, y | x in ranked && y in ranked && !Tied(x, y)
      ensures Sorting.Precedes(ranked, BoardLess, x, y) <==> Sorting.Precedes(shown, ReplayLess, x, y)
    {
      assert BoardLess(x, y) == ReplayLess(x, y) && BoardLess(y, x) == ReplayLess(y, x);
    }
    forall x, y | x in ranked && y in ranked && Tied(x, y)
      ensures Sorting.Precedes(shown, ReplayLess, x, y) <==> Sorting.Before(shown, x, y)
      ensures Sorting.Precedes(ranked, BoardLess, x, y) <==>
              x.startedAt < y.startedAt || (x.startedAt == y.startedAt && Sorting.Before(ranked, x, y))
    {
      assert Tied(y, x);
    }
  }

  lemma PlacedInjective(all: seq<Record>, s: seq<Record>, t: seq<Record>, first: Extras, second: Extras)
    requires DistinctIds(all) && (forall r :: r in s ==> r in all) && (forall r :: r in t ==> r in all)
    requires Placed(s, first) == Placed(t, second)
    ensures s == t && (|s| > 0 ==> first(s[0].id).source == second(s[0].id).source)
  {
    assert |s| == |Placed(s, first)| == |Placed(t, second)| == |t|;
    forall i | 0 <= i < |s| ensures s[i] == t[i] {
      assert Placed(s, first)[i] == Placed(t, second)[i];
      assert s[i] in all && t[i] in all;
      SameId(all, s[i], t[i]);
    }
  }

  /** Rows in the order of their starts. */
  lemma StartsInPlace(rows: seq<Record>, a: Record, b: Record)
    requires ByStart(rows) && DistinctIds(rows) && a in rows && b in rows
    ensures Sorting.Before(rows, a, b) <==>
            a.startedAt < b.startedAt || (a.startedAt == b.startedAt && Sorting.Before(rows, a, b))
  {
    Sorting.SomeOrder(rows, a, b);
  }

  /** Tied submissions stand in the board's query in the order in which their users first appear in
      the replay. */
  ghost predicate TiesAgree(rows: seq<Record>, submissions: seq<Record>) {
    forall a, b :: a in rows && b in rows && Rankable(a) && Rankable(b) && Tied(a, b) ==>
                     (AppearsFirst(submissions, a.user, b.user) <==> Sorting.Before(rows, a, b))
  }

  lemma TieInPlace(rows: seq<Record>, submissions: seq<Record>, language: Option<string>, a: Record, b: Record)
    requires DistinctIds(rows) && ByStart(rows)
    requires Sorting.Members(RankableOnly(rows), ShownIn(submissions, language))
    requires a in RankableOnly(rows) && b in RankableOnly(rows)
    ensures a in rows && b in rows && Rankable(a) && Rankable(b)
    ensures AppearsFirst(submissions, a.user, b.user) <==> Sorting.Before(ShownIn(submissions, language), a, b)
    ensures Sorting.Before(rows, a, b) <==>
            a.startedAt < b.startedAt || (a.startedAt == b.startedAt && Sorting.Before(RankableOnly(rows), a, b))
  {
    RankableMembers(rows);
    ShownByAppearance(submissions, language, a, b);
    RankableInPlace(rows, a, b);
    StartsInPlace(rows, a, b);
  }

  lemma TiesTranslate(rows: seq<Record>, submissions: seq<Record>, language: Option<string>)
    requires DistinctIds(rows) && ByStart(rows)
    requires Sorting.Members(RankableOnly(rows), ShownIn(submissions, language))
    ensures TiesAgree(rows, submissions) <==> TiesInPlace(RankableOnly(rows), ShownIn(submissions, language))
  {
    var ranked, shown := RankableOnly(rows), ShownIn(submissions, language);
    RankableMembers(rows);
    if TiesAgree(rows, submissions) {
      forall a, b | a in ranked && b in ranked && Tied(a, b)
        ensures Sorting.Before(shown, a, b) <==>
                a.startedAt < b.startedAt || (a.startedAt == b.startedAt && Sorting.Before(ranked, a, b))
      {
        TieInPlace(rows, submissions, language, a, b);
      }
    }
    if TiesInPlace(ranked, shown) {
      forall a, b | a in rows && b in rows && Rankable(a) && Rankable(b) && Tied(a, b)
        ensures AppearsFirst(submissions, a.user, b.user) <==> Sorting.Before(rows, a, b)
      {
        TieInPlace(rows, submissions, language, a, b);
      }
    }
  }

  lemma SameMembers(s: State, config: Config, admins: set<User>, language: Option<string>, rows: seq<Record>,
                    submissions: seq<Record>)
    requires Inv(s, config) && ScoresOk(s)
    requires BoardRows(s, config, admins, language, rows) && ReplayRows(s, config, admins, submissions)
    ensures Sorting.Members(RankableOnly(rows), ShownIn(submissions, language)) && AllScored(RankableOnly(rows))
    ensures Distinct(RankableOnly(rows)) && Distinct(ShownIn(submissions, language))
    ensures DistinctIds(RankableOnly(rows))
  {
    forall r ensures r in RankableOnly(rows) <==> r in ShownIn(submissions, language) {
      SameSubmissions(s, config, admins, language, rows, submissions, r);
    }
    RankableDistinct(rows);
    RankableMembers(rows);
    forall r | r in RankableOnly(rows) ensures DigitString(r.privateScore.value) {
      var user :| OnBoard(s, config, admins, language, user, r);
    }
    ShownInDistinct(submissions, language);
  }

  lemma SortedInRows(s: State, config: Config, admins: set<User>, language: Option<string>, rows: seq<Record>,
                     submissions: seq<Record>)
    requires Inv(s, config) && ScoresOk(s)
    requires BoardRows(s, config, admins, language, rows) && ReplayRows(s, config, admins, submissions)
    ensures var x, y := Arranged(rows, PrivateBoard), Sorting.StableSort(ShownIn(submissions, language), ReplayLess);
            && (x == y <==> TiesAgree(rows, submissions))
            && (forall r :: r in x ==> r in RankableOnly(rows)) && (forall r :: r in y ==> r in RankableOnly(rows))
            && DistinctIds(RankableOnly(rows)) && (x == [] <==> RankableOnly(rows) == [])
  {
    var ranked, shown := RankableOnly(rows), ShownIn(submissions, language);
    PrivateArrangement(rows);
    SameMembers(s, config, admins, language, rows, submissions);
    SortsTie(ranked, shown);
    TiesTranslate(rows, submissions, language);
    Sorting.SortMembers(ranked, BoardLess);
    Sorting.SortMembers(shown, ReplayLess);
    if ranked != [] {
      assert ranked[0] in Sorting.StableSort(ranked, BoardLess);
    }
  }

  /** In general the replay shows the ranked list exactly when the ties agree and the private results
      are not published yet, or nothing is ranked. */
  lemma ReplayEqualsBoardExactly(s: State, config: Config, admins: set<User>, language: Option<string>, rows: seq<Record>,
                                 submissions: seq<Record>, published: bool, extras: Extras)
    requires Inv(s, config) && ScoresOk(s)
    requires BoardRows(s, config, admins, language, rows) && ReplayRows(s, config, admins, submissions)
    requires Publishes(rows, published, extras)
    ensures Placed(Arranged(rows, PrivateBoard), extras) == ReplayList(submissions, language) <==>
            TiesAgree(rows, submissions) && (published ==> RankableOnly(rows) == [])
  {
    var x, y := Arranged(rows, PrivateBoard), Sorting.StableSort(ShownIn(submissions, language), ReplayLess);
    SortedInRows(s, config, admins, language, rows, submissions);
    if Placed(x, extras) == Placed(y, NoExtras()) {
      PlacedInjective(RankableOnly(rows), x, y, extras, NoExtras());
    }
    if x == y && !published {
      SamePlaced(x, extras, NoExtras());
    }
  }

  // ---- A run whose ties disagree -----------------------------------------------------

  const TIE_CONFIG := Config(0, 100_000)

  const FIVE := Benchmark(Accepted, Some("5"))

  /** What makes an upload an accepted submission with score 5. */
  function Accepting(id: Id): seq<Step> { [StepQueue(id, "c"), StepClaim(id), StepStore(FIVE, Some(FIVE))] }

  /** User b is accepted early; then user a starts, and within the same millisecond b again. */
  function TieRun(): seq<Step> {
    [StepReserve("b", 1, 1000)] + Accepting(1) + [StepReserve("a", 2, 9000)] + [StepReserve("b", 3, 9001)] +
    Accepting(2) + Accepting(3)
  }

  function Uploaded(user: User, startedAt: nat): Submission {
    Submission(user, Uploading, startedAt, None, None, None, None, None, None)
  }

  function AcceptedRow(user: User, startedAt: nat): Submission {
    Submission(user, Completed, startedAt, Some("c"), Some(Accepted), Some("5"), Some(Accepted), Some("5"), None)
  }

  function TieRecord(user: User, id: Id, startedAt: nat): Record {
    Record(user, id, Some("c"), Some(Accepted), Some("5"), Some(Accepted), Some("5"), false, startedAt)
  }

  const TIE_A := TieRecord("a", 2, 9000)
  const TIE_B := TieRecord("b", 3, 9001)
  const TIE_OLD := TieRecord("b", 1, 1000)

  lemma RunOne(config: Config, steps: seq<Step>, step: Step)
    ensures Run(config, steps + [step]) == Apply(Run(config, steps), config, step).0
  {
    assert (steps + [step])[..|steps|] == steps;
  }

  lemma Reserved(config: Config, steps: seq<Step>, user: User, id: Id, now: nat)
    requires var s := Run(config, steps); now >= config.contestStart && id !in s.rows && !UserActive(s.rows, user)
    ensures var s := Run(config, steps);
            Run(config, steps + [StepReserve(user, id, now)]) ==
            s.(rows := s.rows[id := Uploaded(user, now)], users := if user in s.users then s.users else s.users[user := None])
  {
    RunOne(config, steps, StepReserve(user, id, now));
  }

  /** The only upload, with nothing queued or running, runs next. */
  lemma Claims(config: Config, steps: seq<Step>, id: Id)
    requires var s := Run(config, steps);
             HasStatus(s, id, Uploading) && s.job.None? && forall o :: o in s.rows ==> s.rows[o].status != Queued
    ensures var s := Run(config, steps);
            Run(config, steps + [StepQueue(id, "c")] + [StepClaim(id)]) ==
            s.(rows := s.rows[id := s.rows[id].(status := Running, language := Some("c"))], job := Some(id))
  {
    var s := Run(config, steps);
    RunOne(config, steps, StepQueue(id, "c"));
    assert NextInQueue(s.rows[id := s.rows[id].(status := Queued, language := Some("c"))], id);
    RunOne(config, steps + [StepQueue(id, "c")], StepClaim(id));
  }

  /** It becomes its user's representative. */
  lemma Accepts(config: Config, steps: seq<Step>, id: Id, user: User, startedAt: nat)
    requires var s := Run(config, steps);
             && id in s.rows && s.rows[id] == Uploaded(user, startedAt) && s.job.None? && startedAt <= config.contestEnd
             && (forall o :: o in s.rows ==> s.rows[o].status != Queued) && user in s.users
             && (s.users[user].Some? ==> s.users[user].value in s.rows && s.users[user].value != id &&
                                         s.rows[s.users[user].value].startedAt < startedAt)
    ensures var s := Run(config, steps);
            Run(config, steps + Accepting(id)) ==
            s.(rows := s.rows[id := AcceptedRow(user, startedAt)], users := s.users[user := Some(id)])
  {
    var s, claimed := Run(config, steps), steps + [StepQueue(id, "c")] + [StepClaim(id)];
    Claims(config, steps, id);
    RunOne(config, claimed, StepStore(FIVE, Some(FIVE)));
    assert steps + Accepting(id) == claimed + [StepStore(FIVE, Some(FIVE))];
  }

  lemma TieStarts()
    ensures Run(TIE_CONFIG, [StepReserve("b", 1, 1000)] + Accepting(1)) ==
            State(map[1 := AcceptedRow("b", 1000)], map["b" := Some(1)], None, None)
  {
    Reserved(TIE_CONFIG, [], "b", 1, 1000);
    assert [] + [StepReserve("b", 1, 1000)] == [StepReserve("b", 1, 1000)];
    Accepts(TIE_CONFIG, [StepReserve("b", 1, 1000)], 1, "b", 1000);
  }

  /** Both uploads of the tie are reserved. */
  lemma TieReserves(steps: seq<Step>)
    requires Run(TIE_CONFIG, steps) == State(map[1 := AcceptedRow("b", 1000)], map["b" := Some(1)], None, None)
    ensures Run(TIE_CONFIG, steps + [StepReserve("a", 2, 9000)] + [StepReserve("b", 3, 9001)]) ==
            State(map[1 := AcceptedRow("b", 1000), 2 := Uploaded("a", 9000), 3 := Uploaded("b", 9001)],
                  map["b" := Some(1), "a" := None], None, None)
  {
    Reserved(TIE_CONFIG, steps, "a", 2, 9000);
    Reserved(TIE_CONFIG, steps + [StepReserve("a", 2, 9000)], "b", 3, 9001);
  }

  function TieEnd(): State {
    State(map[1 := AcceptedRow("b", 1000), 2 := AcceptedRow("a", 9000), 3 := AcceptedRow("b", 9001)],
          map["b" := Some(3), "a" := Some(2)], None, None)
  }

  /** First a's submission is accepted, then b's. */
  lemma TieAccepts(steps: seq<Step>)
    requires Run(TIE_CONFIG, steps) ==
             State(map[1 := AcceptedRow("b", 1000), 2 := Uploaded("a", 9000), 3 := Uploaded("b", 9001)],
                   map["b" := Some(1), "a" := None], None, None)
    ensures Run(TIE_CONFIG, steps + Accepting(2) + Accepting(3)) == TieEnd()
  {
    Accepts(TIE_CONFIG, steps, 2, "a", 9000);
    Accepts(TIE_CONFIG, steps + Accepting(2), 3, "b", 9001);
  }

  lemma TieEnds()
    ensures Run(TIE_CONFIG, TieRun()) == TieEnd()
  {
    var first := [StepReserve("b", 1, 1000)] + Accepting(1);
    TieStarts();
    TieReserves(first);
    TieAccepts(first + [StepReserve("a", 2, 9000)] + [StepReserve("b", 3, 9001)]);
  }

  lemma TieQueries()
    ensures BoardRows(TieEnd(), TIE_CONFIG, {}, None, [TIE_A, TIE_B])
    ensures ReplayRows(TieEnd(), TIE_CONFIG, {}, [TIE_OLD, TIE_A, TIE_B])
    ensures ScoresOk(TieEnd())
  {
    var s := TieEnd();
    assert OnBoard(s, TIE_CONFIG, {}, None, "a", TIE_A) && OnBoard(s, TIE_CONFIG, {}, None, "b", TIE_B);
    assert Replayed(s, TIE_CONFIG, {}, TIE_OLD) && Replayed(s, TIE_CONFIG, {}, TIE_A) && Replayed(s, TIE_CONFIG, {}, TIE_B);
  }

  /** The Map after one more accepted submission. */
  lemma LatestNext(front: seq<Record>, last: Record)
    requires Counts(last)
    ensures var before := LatestOf(front);
            LatestOf(front + [last]) ==
            Latest(if last.user in before.values then before.keys else before.keys + [last.user],
                   before.values[last.user := last])
  {
    assert (front + [last])[..|front|] == front;
  }

  lemma TieLatest()
    ensures LatestOf([TIE_OLD, TIE_A, TIE_B]) == Latest(["b", "a"], map["b" := TIE_B, "a" := TIE_A])
  {
    TieLatestFirst();
    LatestNext([TIE_OLD, TIE_A], TIE_B);
    assert [TIE_OLD, TIE_A] + [TIE_B] == [TIE_OLD, TIE_A, TIE_B];
  }

  lemma TieLatestFirst()
    ensures LatestOf([TIE_OLD, TIE_A]) == Latest(["b", "a"], map["b" := TIE_OLD, "a" := TIE_A])
  {
    LatestNext([], TIE_OLD);
    LatestNext([TIE_OLD], TIE_A);
    assert [] + [TIE_OLD] == [TIE_OLD] && [TIE_OLD] + [TIE_A] == [TIE_OLD, TIE_A];
  }

  lemma TieShown()
    ensures ShownIn([TIE_OLD, TIE_A, TIE_B], None) == [TIE_B, TIE_A]
  {
    TieLatest();
    var values := map["b" := TIE_B, "a" := TIE_A];
    assert ["b", "a"][..1] == ["b"] && ["b"][..0] == [];
    assert ShownOnly(["b"], values, None) == [TIE_B];
  }

  lemma TieRankable()
    ensures RankableOnly([TIE_A, TIE_B]) == [TIE_A, TIE_B]
  {
    assert [TIE_A, TIE_B][..1] == [TIE_A] && [TIE_A][..0] == [];
    assert RankableOnly([TIE_A]) == [TIE_A];
  }

  lemma TieSorts()
    ensures Arranged([TIE_A, TIE_B], PrivateBoard) == [TIE_A, TIE_B]
    ensures ReplayList([TIE_OLD, TIE_A, TIE_B], None) == Placed([TIE_B, TIE_A], NoExtras())
    ensures Placed([TIE_A, TIE_B], NoExtras()) != Placed([TIE_B, TIE_A], NoExtras())
  {
    TieShown();
    TieRankable();
    PrivateArrangement([TIE_A, TIE_B]);
    CompareDecimalIsNumeric("5", "5");
    SortPair(TIE_A, TIE_B, BoardLess);
    SortPair(TIE_B, TIE_A, ReplayLess);
    assert Placed([TIE_A, TIE_B], NoExtras())[0].user != Placed([TIE_B, TIE_A], NoExtras())[0].user;
  }

  lemma TieDisagrees()
    ensures !TiesAgree([TIE_A, TIE_B], [TIE_OLD, TIE_A, TIE_B])
  {
    TieEnds();
    TieQueries();
    TieSorts();
    RunKeeps(TIE_CONFIG, TieRun());
    ReplayEqualsBoardExactly(TieEnd(), TIE_CONFIG, {}, None, [TIE_A, TIE_B], [TIE_OLD, TIE_A, TIE_B], false, NoExtras());
  }

  /** With such a tie the replay shows another list than the board: the browser keeps the order in
      which users first appeared, the server looks at the microseconds. */
  lemma TieDiffers()
    ensures var s := Run(TIE_CONFIG, TieRun());
            && BoardRows(s, TIE_CONFIG, {}, None, [TIE_A, TIE_B])
            && ReplayRows(s, TIE_CONFIG, {}, [TIE_OLD, TIE_A, TIE_B])
    ensures Arranged([TIE_A, TIE_B], PrivateBoard) == [TIE_A, TIE_B]
    ensures ReplayList([TIE_OLD, TIE_A, TIE_B], None) == Placed([TIE_B, TIE_A], NoExtras())
    ensures Placed(Arranged([TIE_A, TIE_B], PrivateBoard), NoExtras()) != ReplayList([TIE_OLD, TIE_A, TIE_B], None)
    ensures !TiesAgree([TIE_A, TIE_B], [TIE_OLD, TIE_A, TIE_B])
  {
    TieEnds();
    TieQueries();
    TieSorts();
    TieDisagrees();
  }

  lemma SortPair(first: Record, second: Record, less: (Record, Record) -> bool)
    requires !less(second, first)
    ensures Sorting.StableSort([first, second], less) == [first, second]
  {
    assert [first, second][1..] == [second] && [second][1..] == [];
    assert Sorting.StableSort([second], less) == Sorting.Insert(second, [], less) == [second];
    assert Sorting.StableSort([first, second], less) == Sorting.Insert(first, [second], less);
  }
}
