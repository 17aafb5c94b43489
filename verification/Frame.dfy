/** The browser's replay frame, which ranks from scratch the submissions of all users. */
module Frame {
  import opened ReferenceFold
  import opened Collections
  import opened Queue
  import opened Leaderboard
  import Sorting

  // ---- Representatives, from scratch -------------------------------------------------

  /** The Map of representatives: keys in order of first insertion, each with its last value. */
  datatype Latest = Latest(keys: seq<User>, values: map<User, Record>)

  predicate Counts(r: Record) { r.publicVerdict == Some(Accepted) }

  function LatestOf(submissions: seq<Record>): Latest {
    if |submissions| == 0 then Latest([], map[])
    else
      var front, last := LatestOf(submissions[..|submissions| - 1]), submissions[|submissions| - 1];
      if !Counts(last) then front
      else Latest(if last.user in front.values then front.keys else front.keys + [last.user],
                  front.values[last.user := last])
  }

  ghost predicate LatestOk(l: Latest) {
    Distinct(l.keys) && forall u :: u in l.keys <==> u in l.values
  }

  lemma {:induction false} LatestIsOk(submissions: seq<Record>)
    ensures LatestOk(LatestOf(submissions))
  {
    if |submissions| > 0 {
      LatestIsOk(submissions[..|submissions| - 1]);
    }
  }

  /** What stays of a representative under a language filter. */
  predicate Shown(r: Record, language: Option<string>) {
    && !r.disqualified && r.language.Some? && (language.None? || r.language == language)
    && r.privateVerdict == Some(Accepted) && r.privateScore.Some?
  }

  function ShownOnly(keys: seq<User>, values: map<User, Record>, language: Option<string>): seq<Record>
    requires forall u :: u in keys ==> u in values
  {
    if |keys| == 0 then []
    else
      var last := keys[|keys| - 1];
      ShownOnly(keys[..|keys| - 1], values, language) +
      if Shown(values[last], language) then [values[last]] else []
  }

  function ShownIn(submissions: seq<Record>, language: Option<string>): seq<Record> {
    LatestIsOk(submissions);
    ShownOnly(LatestOf(submissions).keys, LatestOf(submissions).values, language)
  }

  /** The replay shows no changes of rank and no sources. */
  function NoExtras(): Extras { id => PLAIN }

  function ReplayList(submissions: seq<Record>, language: Option<string>): seq<Entry> {
    Placed(Sorting.StableSort(ShownIn(submissions, language), ReplayLess), NoExtras())
  }

  lemma {:induction false} ShownMembers(keys: seq<User>, values: map<User, Record>, language: Option<string>, r: Record)
    requires forall u :: u in keys ==> u in values
    ensures r in ShownOnly(keys, values, language) <==>
            exists u :: u in keys && values[u] == r && Shown(r, language)
  {
    if |keys| > 0 {
      var front, last := keys[..|keys| - 1], keys[|keys| - 1];
      ShownMembers(front, values, language, r);
      assert forall u :: u in keys <==> u in front || u == last;
    }
  }

  /** Every value belongs to its user and is the last that counts. */
  lemma {:induction false} LatestMeaning(submissions: seq<Record>, user: User) returns (k: nat)
    ensures user in LatestOf(submissions).values ==>
              && k < |submissions| && Counts(submissions[k]) && submissions[k].user == user
              && LatestOf(submissions).values[user] == submissions[k]
              && forall j :: k < j < |submissions| && Counts(submissions[j]) ==> submissions[j].user != user
    ensures user !in LatestOf(submissions).values ==>
              forall j :: 0 <= j < |submissions| && Counts(submissions[j]) ==> submissions[j].user != user
  {
    if |submissions| == 0 {
      k := 0;
    } else {
      var front, last := submissions[..|submissions| - 1], submissions[|submissions| - 1];
      k := LatestMeaning(front, user);
      if Counts(last) && last.user == user {
        k := |submissions| - 1;
      }
    }
  }

  lemma {:induction false} ShownDistinct(keys: seq<User>, values: map<User, Record>, language: Option<string>)
    requires Distinct(keys) && forall u :: u in keys ==> u in values && values[u].user == u
    ensures Distinct(ShownOnly(keys, values, language))
  {
    if |keys| > 0 {
      var front, last := keys[..|keys| - 1], keys[|keys| - 1];
      ShownDistinct(front, values, language);
      var shown := ShownOnly(front, values, language);
      forall k | 0 <= k < |shown| ensures shown[k] != values[last] {
        ShownMembers(front, values, language, shown[k]);
        assert shown[k] in shown;
        var u :| u in front && values[u] == shown[k];
        var j :| 0 <= j < |front| && front[j] == u;
        assert keys[j] != keys[|keys| - 1];
      }
    }
  }

  lemma ShownInDistinct(submissions: seq<Record>, language: Option<string>)
    ensures Distinct(ShownIn(submissions, language))
  {
    var latest := LatestOf(submissions);
    LatestIsOk(submissions);
    forall u | u in latest.keys ensures u in latest.values && latest.values[u].user == u {
      var k := LatestMeaning(submissions, u);
    }
    ShownDistinct(latest.keys, latest.values, language);
  }

  // ---- First appearances -------------------------------------------------------------

  /** One user has an accepted submission in the replay before the first one of the other. */
  ghost predicate AppearsFirst(submissions: seq<Record>, user: User, other: User) {
    exists i :: 0 <= i < |submissions| && Counts(submissions[i]) && submissions[i].user == user &&
                forall j :: 0 <= j <= i && Counts(submissions[j]) ==> submissions[j].user != other
  }

  /** How that changes with one more submission. */
  lemma AppearsNext(front: seq<Record>, last: Record, user: User, other: User)
    ensures AppearsFirst(front + [last], user, other) <==>
            || AppearsFirst(front, user, other)
            || (Counts(last) && last.user == user && user != other && !Appears(front, other))
  {
    var all := front + [last];
    assert forall j :: 0 <= j < |front| ==> all[j] == front[j];
    if AppearsFirst(all, user, other) {
      var i :| 0 <= i < |all| && Counts(all[i]) && all[i].user == user &&
               forall j :: 0 <= j <= i && Counts(all[j]) ==> all[j].user != other;
      assert i < |front| ==> forall j :: 0 <= j <= i && Counts(front[j]) ==> front[j].user != other;
      assert i == |front| ==> forall j :: 0 <= j < |front| && Counts(front[j]) ==> front[j].user != other;
    }
    if AppearsFirst(front, user, other) {
      var i :| 0 <= i < |front| && Counts(front[i]) && front[i].user == user &&
               forall j :: 0 <= j <= i && Counts(front[j]) ==> front[j].user != other;
      assert Counts(all[i]) && all[i].user == user;
    }
    if Counts(last) && last.user == user && user != other && !Appears(front, other) {
      assert all[|front|] == last;
    }
  }

  ghost predicate Appears(submissions: seq<Record>, user: User) {
    exists i :: 0 <= i < |submissions| && Counts(submissions[i]) && submissions[i].user == user
  }

  lemma AppearsMeansKey(submissions: seq<Record>, user: User)
    ensures Appears(submissions, user) <==> user in LatestOf(submissions).keys
  {
    LatestIsOk(submissions);
    var k := LatestMeaning(submissions, user);
  }

  /** The keys of the Map stand in the order in which users first appear. */
  lemma {:induction false} KeysByAppearance(submissions: seq<Record>, user: User, other: User)
    requires Appears(submissions, other)
    ensures Sorting.Before(LatestOf(submissions).keys, user, other) <==> AppearsFirst(submissions, user, other)
  {
    var front, last := submissions[..|submissions| - 1], submissions[|submissions| - 1];
    assert submissions == front + [last];
    var keys := LatestOf(front).keys;
    LatestIsOk(front);
    AppearsMeansKey(front, other);
    AppearsMeansKey(front, user);
    AppearsNext(front, last, user, other);
    AppearsFirstAppears(front, user, other);
    if Appears(front, other) {
      KeysByAppearance(front, user, other);
    } else {
      assert Counts(last) && last.user == other;
      assert !Sorting.Before(keys, user, other);
    }
    if Counts(last) && last.user !in LatestOf(front).values {
      Sorting.SnocBefore(keys, last.user, user, other);
    }
  }

  lemma AppearsFirstAppears(submissions: seq<Record>, user: User, other: User)
    ensures AppearsFirst(submissions, user, other) ==> Appears(submissions, user)
    ensures !Appears(submissions, other) && Appears(submissions, user) ==> AppearsFirst(submissions, user, other)
    ensures user == other ==> !AppearsFirst(submissions, user, other)
  {
  }

  /** How one more key changes the order of the representatives shown. */
  lemma ShownNext(keys: seq<User>, values: map<User, Record>, language: Option<string>, a: Record, b: Record)
    requires |keys| > 0 && Distinct(keys) && forall u :: u in keys ==> u in values && values[u].user == u
    ensures var front, last := keys[..|keys| - 1], values[keys[|keys| - 1]];
            Sorting.Before(ShownOnly(keys, values, language), a, b) <==>
            || Sorting.Before(ShownOnly(front, values, language), a, b)
            || (b == last && Shown(last, language) && a in ShownOnly(front, values, language))
  {
    var front, last := keys[..|keys| - 1], keys[|keys| - 1];
    var shown := ShownOnly(front, values, language);
    ShownUser(front, values, language, values[last]);
    if Shown(values[last], language) {
      Sorting.SnocBefore(shown, values[last], a, b);
    } else {
      assert ShownOnly(keys, values, language) == shown;
    }
  }

  /** The representatives shown stand in the order of the keys. */
  lemma {:induction false} ShownByKeys(keys: seq<User>, values: map<User, Record>, language: Option<string>, a: Record,
                                       b: Record)
    requires Distinct(keys) && forall u :: u in keys ==> u in values && values[u].user == u
    requires a.user in keys && values[a.user] == a && Shown(a, language)
    requires b.user in keys && values[b.user] == b && Shown(b, language)
    ensures Sorting.Before(ShownOnly(keys, values, language), a, b) <==> Sorting.Before(keys, a.user, b.user)
  {
    var front := keys[..|keys| - 1];
    if a.user in front && b.user in front {
      ShownByKeys(front, values, language, a, b);
      BothInFront(keys, values, language, a, b);
    } else {
      NewestLast(keys, values, language, a, b);
    }
  }

  lemma BothInFront(keys: seq<User>, values: map<User, Record>, language: Option<string>, a: Record, b: Record)
    requires |keys| > 0 && Distinct(keys) && forall u :: u in keys ==> u in values && values[u].user == u
    requires a.user in keys[..|keys| - 1] && b.user in keys[..|keys| - 1]
    ensures var front := keys[..|keys| - 1];
            && (Sorting.Before(ShownOnly(keys, values, language), a, b) <==> Sorting.Before(ShownOnly(front, values, language), a, b))
            && (Sorting.Before(keys, a.user, b.user) <==> Sorting.Before(front, a.user, b.user))
  {
    var front, last := keys[..|keys| - 1], keys[|keys| - 1];
    assert keys == front + [last] && last !in front;
    ShownNext(keys, values, language, a, b);
    Sorting.SnocBefore(front, last, a.user, b.user);
  }

  lemma NewestLast(keys: seq<User>, values: map<User, Record>, language: Option<string>, a: Record, b: Record)
    requires |keys| > 0 && Distinct(keys) && forall u :: u in keys ==> u in values && values[u].user == u
    requires a.user in keys && values[a.user] == a && Shown(a, language)
    requires b.user in keys && values[b.user] == b && Shown(b, language)
    requires a.user !in keys[..|keys| - 1] || b.user !in keys[..|keys| - 1]
    ensures Sorting.Before(ShownOnly(keys, values, language), a, b) <==> Sorting.Before(keys, a.user, b.user)
  {
    var front, last := keys[..|keys| - 1], keys[|keys| - 1];
    assert keys == front + [last] && last !in front;
    ShownNext(keys, values, language, a, b);
    Sorting.SnocBefore(front, last, a.user, b.user);
    ShownUser(front, values, language, a);
    ShownUser(front, values, language, b);
    Sorting.BeforeMembers(ShownOnly(front, values, language), a, b);
    Sorting.BeforeMembers(front, a.user, b.user);
  }

  lemma ShownUser(keys: seq<User>, values: map<User, Record>, language: Option<string>, r: Record)
    requires forall u :: u in keys ==> u in values && values[u].user == u
    ensures r in ShownOnly(keys, values, language) <==>
            r.user in keys && values[r.user] == r && Shown(r, language)
  {
    ShownMembers(keys, values, language, r);
  }

  lemma ShownByAppearance(submissions: seq<Record>, language: Option<string>, a: Record, b: Record)
    requires a in ShownIn(submissions, language) && b in ShownIn(submissions, language)
    ensures Sorting.Before(ShownIn(submissions, language), a, b) <==> AppearsFirst(submissions, a.user, b.user)
  {
    var latest := LatestOf(submissions);
    LatestIsOk(submissions);
    forall u | u in latest.keys ensures u in latest.values && latest.values[u].user == u {
      var k := LatestMeaning(submissions, u);
    }
    ShownUser(latest.keys, latest.values, language, a);
    ShownUser(latest.keys, latest.values, language, b);
    ShownByKeys(latest.keys, latest.values, language, a, b);
    AppearsMeansKey(submissions, b.user);
    KeysByAppearance(submissions, a.user, b.user);
  }

  // ---- What a frame says, read off the submissions -----------------------------------

  /** The user's last accepted submission. */
  ghost predicate IsLast(submissions: seq<Record>, r: Record) {
    exists k :: 0 <= k < |submissions| && submissions[k] == r && r.publicVerdict == Some(Accepted) &&
                forall j :: k < j < |submissions| && submissions[j].user == r.user ==>
                              submissions[j].publicVerdict != Some(Accepted)
  }

  /** It is in the frame: not disqualified, in the language asked for, and accepted with a score. */
  ghost predicate InFrame(submissions: seq<Record>, language: Option<string>, r: Record) {
    && IsLast(submissions, r) && !r.disqualified && r.language.Some? && (language.Some? ==> r.language == language)
    && r.privateVerdict == Some(Accepted) && r.privateScore.Some?
  }

  /** x ranks ahead of y: by the smaller score, then the earlier millisecond, then the user that
      appeared first. */
  ghost predicate AheadInFrame(submissions: seq<Record>, x: Record, y: Record) {
    || Points(x.privateScore) < Points(y.privateScore)
    || (Points(x.privateScore) == Points(y.privateScore) &&
        (x.startedAt / 1000 < y.startedAt / 1000 ||
         (x.startedAt / 1000 == y.startedAt / 1000 && AppearsFirst(submissions, x.user, y.user))))
  }

  ghost function FrameRank(submissions: seq<Record>, language: Option<string>, r: Record): nat {
    1 + |set x | x in submissions && InFrame(submissions, language, x) && AheadInFrame(submissions, x, r)|
  }

  ghost predicate FrameEntrySays(submissions: seq<Record>, language: Option<string>, r: Record, e: Entry) {
    && e.rank == Some(FrameRank(submissions, language, r)) && e.change.None? && !e.source
    && e.user == r.user && e.id == r.id && e.language == r.language && e.score == r.privateScore
    && e.verdict == Of(Accepted) && e.submittedAt == r.startedAt / 1000
  }

  ghost predicate SaysFramed(submissions: seq<Record>, language: Option<string>, e: Entry) {
    exists r :: InFrame(submissions, language, r) && FrameEntrySays(submissions, language, r, e)
  }

  /** One entry for every submission in the frame, by rank from one on. */
  ghost predicate FrameSays(submissions: seq<Record>, language: Option<string>, entries: seq<Entry>) {
    && (forall i :: 0 <= i < |entries| ==> entries[i].rank == Some(i + 1) && SaysFramed(submissions, language, entries[i]))
    && (forall r :: InFrame(submissions, language, r) ==>
                      exists e :: e in entries && FrameEntrySays(submissions, language, r, e))
  }

  lemma ShownIsFramed(submissions: seq<Record>, language: Option<string>, r: Record)
    ensures r in ShownIn(submissions, language) <==> InFrame(submissions, language, r)
    ensures r in ShownIn(submissions, language) ==> r in submissions
  {
    var latest := LatestOf(submissions);
    LatestIsOk(submissions);
    ShownMembers(latest.keys, latest.values, language, r);
    if r in ShownIn(submissions, language) {
      var u :| u in latest.keys && latest.values[u] == r && Shown(r, language);
      var k := LatestMeaning(submissions, u);
      assert submissions[k] == r;
    }
    if InFrame(submissions, language, r) {
      var k := LatestMeaning(submissions, r.user);
      var i :| 0 <= i < |submissions| && submissions[i] == r && r.publicVerdict == Some(Accepted) &&
               forall j :: i < j < |submissions| && submissions[j].user == r.user ==>
                             submissions[j].publicVerdict != Some(Accepted);
      assert Counts(submissions[i]);
      assert i == k && latest.values[r.user] == r && r.user in latest.keys;
    }
  }

  lemma ReplayWeak(shown: seq<Record>)
    ensures Sorting.WeaklyOrders(ReplayLess, shown)
  {
  }

  lemma AheadPrecedesInFrame(submissions: seq<Record>, language: Option<string>, x: Record, y: Record)
    requires x in ShownIn(submissions, language) && y in ShownIn(submissions, language)
    ensures AheadInFrame(submissions, x, y) <==> Sorting.Precedes(ShownIn(submissions, language), ReplayLess, x, y)
  {
    ShownByAppearance(submissions, language, x, y);
    assert Score(x) == Points(x.privateScore) && Score(y) == Points(y.privateScore);
  }

  lemma PlaceIsFrameRank(submissions: seq<Record>, language: Option<string>, i: nat)
    requires i < |ShownIn(submissions, language)| == |Sorting.StableSort(ShownIn(submissions, language), ReplayLess)|
    ensures var r := Sorting.StableSort(ShownIn(submissions, language), ReplayLess)[i];
            InFrame(submissions, language, r) && FrameRank(submissions, language, r) == i + 1
  {
    var shown := ShownIn(submissions, language);
    var r := Sorting.StableSort(shown, ReplayLess)[i];
    ShownInDistinct(submissions, language);
    ReplayWeak(shown);
    Sorting.PlaceIsCount(shown, ReplayLess, i);
    Sorting.SortMembers(shown, ReplayLess);
    assert r in shown;
    ShownIsFramed(submissions, language, r);
    forall x ensures x in submissions && InFrame(submissions, language, x) && AheadInFrame(submissions, x, r) <==>
                     x in shown && Sorting.Precedes(shown, ReplayLess, x, r)
    {
      ShownIsFramed(submissions, language, x);
      if x in shown {
        AheadPrecedesInFrame(submissions, language, x, r);
      }
    }
    assert (set x | x in submissions && InFrame(submissions, language, x) && AheadInFrame(submissions, x, r)) ==
           (set x | x in shown && Sorting.Precedes(shown, ReplayLess, x, r));
  }

  lemma ListPlaceSays(submissions: seq<Record>, language: Option<string>, i: nat)
    requires i < |ShownIn(submissions, language)| == |Sorting.StableSort(ShownIn(submissions, language), ReplayLess)|
    ensures FrameEntrySays(submissions, language, Sorting.StableSort(ShownIn(submissions, language), ReplayLess)[i],
                           ReplayList(submissions, language)[i])
  {
    PlaceIsFrameRank(submissions, language, i);
  }

  lemma ListSays(submissions: seq<Record>, language: Option<string>)
    ensures FrameSays(submissions, language, ReplayList(submissions, language))
  {
    var shown, entries := ShownIn(submissions, language), ReplayList(submissions, language);
    var sorted := Sorting.StableSort(shown, ReplayLess);
    Sorting.SortMembers(shown, ReplayLess);
    forall i | 0 <= i < |entries| ensures SaysFramed(submissions, language, entries[i]) {
      PlaceIsFrameRank(submissions, language, i);
      ListPlaceSays(submissions, language, i);
    }
    forall r | InFrame(submissions, language, r)
      ensures exists e :: e in entries && FrameEntrySays(submissions, language, r, e)
    {
      ShownIsFramed(submissions, language, r);
      assert r in sorted;
      var i :| 0 <= i < |sorted| && sorted[i] == r;
      ListPlaceSays(submissions, language, i);
      assert entries[i] in entries;
    }
  }

  /** buildLeaderboardReplayFrame: the first submissions alone decide; each user's last accepted one of
      them is ranked if it may be shown, by score, millisecond and the user's first appearance. */
  method BuildReplayFrame(submissions: seq<Record>, submissionCount: nat, language: Option<string>)
    returns (entries: seq<Entry>)
    ensures var n := if submissionCount < |submissions| then submissionCount else |submissions|;
            entries == ReplayList(submissions[..n], language) && FrameSays(submissions[..n], language, entries)
  {
    var n := if submissionCount < |submissions| then submissionCount else |submissions|;
    var keys: seq<User>, values: map<User, Record> := [], map[];
    for i := 0 to n
      invariant Latest(keys, values) == LatestOf(submissions[..i])
    {
      assert submissions[..i + 1][..i] == submissions[..i];
      if Counts(submissions[i]) {
        if submissions[i].user !in values {
          keys := keys + [submissions[i].user];
        }
        values := values[submissions[i].user := submissions[i]];
      }
    }
    LatestIsOk(submissions[..n]);
    var shown := [];
    for i := 0 to |keys|
      invariant shown == ShownOnly(keys[..i], values, language)
    {
      assert keys[..i + 1][..i] == keys[..i];
      if Shown(values[keys[i]], language) {
        shown := shown + [values[keys[i]]];
      }
    }
    assert keys[..|keys|] == keys;
    entries := Placed(Sorting.StableSort(shown, ReplayLess), NoExtras());
    ListSays(submissions[..n], language);
  }
}
