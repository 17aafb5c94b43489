/** The server's leaderboard: its decimal comparison, the ranking of either board, and what the
    entries say of the rows. */
module Leaderboard {
  import opened ReferenceFold
  import opened Collections
  import opened Printing
  import opened Queue
  import Sorting

  // ---- compareDecimal ----------------------------------------------------------------

  predicate DigitString(s: string) { forall i :: 0 <= i < |s| ==> '0' <= s[i] <= '9' }

  /** The number a digit string spells, which is also what BigInt reads. */
  function Number(s: string): nat
    requires DigitString(s)
  {
    if |s| == 0 then 0 else Times(s[0] as nat - '0' as nat, Pow10(|s| - 1)) + Number(s[1..])
  }

  function Times(d: nat, p: nat): nat { d * p }

  /** strings.TrimLeft(s, "0") */
  function TrimZeros(s: string): string {
    if |s| > 0 && s[0] == '0' then TrimZeros(s[1..]) else s
  }

  /** strings.Compare */
  function CompareStrings(a: string, b: string): int {
    if |a| == 0 then if |b| == 0 then 0 else -1
    else if |b| == 0 then 1
    else if a[0] < b[0] then -1
    else if a[0] > b[0] then 1
    else CompareStrings(a[1..], b[1..])
  }

  function CompareDecimal(left: string, right: string): int {
    var l, r := TrimZeros(left), TrimZeros(right);
    var a, b := if l == "" then "0" else l, if r == "" then "0" else r;
    if |a| < |b| then -1 else if |a| > |b| then 1 else CompareStrings(a, b)
  }

  /** compareNanoseconds */
  function CompareNanoseconds(left: string, right: string): int
    requires DigitString(left) && DigitString(right)
  {
    if Number(left) < Number(right) then -1 else if Number(left) > Number(right) then 1 else 0
  }

  lemma {:induction false} TrimKeepsNumber(s: string)
    requires DigitString(s)
    ensures DigitString(TrimZeros(s)) && Number(TrimZeros(s)) == Number(s)
    ensures TrimZeros(s) != "" ==> TrimZeros(s)[0] != '0'
  {
    if |s| > 0 && s[0] == '0' {
      TrimKeepsNumber(s[1..]);
    }
  }

  lemma {:induction false} NumberBelow(s: string)
    requires DigitString(s)
    ensures Number(s) < Pow10(|s|)
  {
    if |s| > 0 {
      NumberBelow(s[1..]);
      DigitTimes(s[0] as nat - '0' as nat, Pow10(|s| - 1));
    } else {
      assert Pow10(0) == 1;
    }
  }

  lemma DigitTimes(d: nat, p: nat)
    requires d <= 9
    ensures Times(d, p) + p <= 10 * p
    ensures d >= 1 ==> Times(d, p) >= p
  {
  }

  lemma {:induction false} Pow10Monotone(a: nat, b: nat)
    requires a <= b
    ensures 1 <= Pow10(a) <= Pow10(b)
    decreases b
  {
    if a < b {
      Pow10Monotone(a, b - 1);
    } else if a > 0 {
      Pow10Monotone(a - 1, b - 1);
    }
  }

  lemma {:induction false} CompareSameLength(a: string, b: string)
    requires DigitString(a) && DigitString(b) && |a| == |b|
    ensures CompareStrings(a, b) == CompareNanoseconds(a, b)
  {
    if |a| > 0 {
      var x, y, p := a[0] as nat - '0' as nat, b[0] as nat - '0' as nat, Pow10(|a| - 1);
      NumberBelow(a[1..]);
      NumberBelow(b[1..]);
      if a[0] == b[0] {
        CompareSameLength(a[1..], b[1..]);
      } else if x < y {
        NextDigit(x, y, p);
      } else {
        NextDigit(y, x, p);
      }
    }
  }

  lemma {:induction false} NextDigit(x: nat, y: nat, p: nat)
    requires x < y
    ensures Times(x, p) + p <= Times(y, p)
    decreases y
  {
    assert Times(y, p) == Times(y - 1, p) + p;
    if x + 1 < y {
      NextDigit(x, y - 1, p);
    }
  }

  lemma LongerIsLarger(a: string, b: string)
    requires DigitString(a) && DigitString(b) && |a| < |b| && b[0] != '0'
    ensures Number(a) < Number(b)
  {
    NumberBelow(a);
    Pow10Monotone(|a|, |b| - 1);
    DigitTimes(b[0] as nat - '0' as nat, Pow10(|b| - 1));
  }

  /** compareDecimal is numeric order on digit strings, leading zeros or not. */
  lemma CompareDecimalIsNumeric(left: string, right: string)
    requires DigitString(left) && DigitString(right)
    ensures CompareDecimal(left, right) == CompareNanoseconds(left, right)
  {
    TrimKeepsNumber(left);
    TrimKeepsNumber(right);
    var l, r := TrimZeros(left), TrimZeros(right);
    var a, b := if l == "" then "0" else l, if r == "" then "0" else r;
    assert Number("0") == Number("") == 0;
    assert Number(a) == Number(left) && Number(b) == Number(right);
    if |a| < |b| {
      LongerIsLarger(a, b);
    } else if |a| > |b| {
      LongerIsLarger(b, a);
    } else {
      CompareSameLength(a, b);
    }
  }

  // ---- What both sides rank ----------------------------------------------------------

  /** A submission as both queries return it. */
  datatype Record = Record(user: User, id: Id, language: Option<string>, publicVerdict: Option<Verdict>,
                           publicScore: Option<string>, privateVerdict: Option<Verdict>, privateScore: Option<string>,
                           disqualified: bool, startedAt: nat)

  function RecordOf(id: Id, r: Submission): Record {
    Record(r.user, id, r.language, r.publicVerdict, r.publicScore, r.privateVerdict, r.privateScore,
           r.disqualified.Some?, r.startedAt)
  }

  datatype Board = PublicBoard | PrivateBoard

  /** A row as a board judges it: the public board by the public result, as if it were the private
      one. */
  function Judged(r: Record, board: Board): Record {
    if board.PrivateBoard? then r else r.(privateVerdict := r.publicVerdict, privateScore := r.publicScore)
  }

  function JudgedAll(rows: seq<Record>, board: Board): (judged: seq<Record>)
    ensures |judged| == |rows|
    ensures forall i :: 0 <= i < |rows| ==> judged[i] == Judged(rows[i], board)
  {
    seq(|rows|, i requires 0 <= i < |rows| => Judged(rows[i], board))
  }

  predicate Rankable(r: Record) {
    !r.disqualified && r.privateVerdict == Some(Accepted) && r.privateScore.Some?
  }

  function Score(r: Record): nat {
    if r.privateScore.Some? && DigitString(r.privateScore.value) then Number(r.privateScore.value) else 0
  }

  /** isoTime keeps milliseconds of the stored microseconds. */
  function Millis(r: Record): nat { r.startedAt / 1000 }

  /** The order of the server: decimal scores, then the exact start. */
  predicate BoardLess(a: Record, b: Record) {
    if a.privateScore.Some? && b.privateScore.Some? && CompareDecimal(a.privateScore.value, b.privateScore.value) != 0
    then CompareDecimal(a.privateScore.value, b.privateScore.value) < 0
    else a.startedAt < b.startedAt
  }

  /** The order of the browser: numeric scores, then milliseconds. */
  predicate ReplayLess(a: Record, b: Record) {
    if Score(a) != Score(b) then Score(a) < Score(b) else Millis(a) < Millis(b)
  }

  datatype EntryVerdict = Of(verdict: Verdict) | InfrastructureError | IsDisqualified

  /** What an entry says beyond its row and rank. */
  datatype Extra = Extra(change: Option<int>, source: bool)

  type Extras = Id -> Extra

  /** No change of rank and no source, as before the private results are published. */
  const PLAIN := Extra(None, false)

  datatype Entry = Entry(rank: Option<nat>, change: Option<int>, user: User, id: Id, language: Option<string>,
                         score: Option<string>, verdict: EntryVerdict, submittedAt: nat, source: bool)

  /** The entry of a judged row. */
  function EntryOf(r: Record, rank: Option<nat>, x: Extra): Entry {
    Entry(rank, x.change, r.user, r.id, r.language, r.privateScore,
          if r.disqualified then IsDisqualified else if r.privateVerdict.Some? then Of(r.privateVerdict.value)
          else InfrastructureError,
          Millis(r), x.source)
  }

  /** Ranks 1..n in this order. */
  function Placed(s: seq<Record>, extras: Extras): (e: seq<Entry>)
    ensures |e| == |s|
    ensures forall i :: 0 <= i < |s| ==> e[i] == EntryOf(s[i], Some(i + 1), extras(s[i].id))
  {
    seq(|s|, i requires 0 <= i < |s| => EntryOf(s[i], Some(i + 1), extras(s[i].id)))
  }

  // ---- The arrangement of a board ----------------------------------------------------

  function RankableOnly(rows: seq<Record>): seq<Record> {
    if |rows| == 0 then []
    else RankableOnly(rows[..|rows| - 1]) + if Rankable(rows[|rows| - 1]) then [rows[|rows| - 1]] else []
  }

  lemma {:induction false} RankableMembers(rows: seq<Record>)
    ensures forall r :: r in RankableOnly(rows) <==> r in rows && Rankable(r)
  {
    if |rows| > 0 {
      RankableMembers(rows[..|rows| - 1]);
      assert rows == rows[..|rows| - 1] + [rows[|rows| - 1]];
    }
  }

  ghost predicate DistinctIds(rows: seq<Record>) {
    forall i, j :: 0 <= i < j < |rows| ==> rows[i].id != rows[j].id
  }

  lemma {:induction false} RankableDistinct(rows: seq<Record>)
    requires DistinctIds(rows)
    ensures DistinctIds(RankableOnly(rows))
  {
    if |rows| > 0 {
      var front := rows[..|rows| - 1];
      RankableDistinct(front);
      RankableMembers(front);
      var kept := RankableOnly(front);
      forall i | 0 <= i < |kept| ensures kept[i].id != rows[|rows| - 1].id {
        assert kept[i] in kept;
        var k :| 0 <= k < |front| && front[k] == kept[i];
      }
    }
  }

  /** The rank map of an arrangement: positions from one on. */
  ghost predicate RanksOf(sorted: seq<Record>, ranks: map<Id, nat>) {
    && (forall i :: 0 <= i < |sorted| ==> sorted[i].id in ranks && ranks[sorted[i].id] == i + 1)
    && (forall id :: id in ranks ==> exists i :: 0 <= i < |sorted| && sorted[i].id == id)
  }

  lemma RankNext(sorted: seq<Record>, i: nat, ranks: map<Id, nat>)
    requires i < |sorted| && DistinctIds(sorted) && RanksOf(sorted[..i], ranks)
    ensures RanksOf(sorted[..i + 1], ranks[sorted[i].id := i + 1])
  {
  }

  /** The arrangement of a board: the rows it can rank, by score and start. */
  ghost function Arranged(rows: seq<Record>, board: Board): seq<Record> {
    Sorting.StableSort(RankableOnly(JudgedAll(rows, board)), BoardLess)
  }

  lemma {:induction false} SortKeepsDistinctIds(s: seq<Record>)
    requires DistinctIds(s)
    ensures DistinctIds(Sorting.StableSort(s, BoardLess))
  {
    if |s| > 0 {
      SortKeepsDistinctIds(s[1..]);
      Sorting.SortMembers(s[1..], BoardLess);
      var rest := Sorting.StableSort(s[1..], BoardLess);
      forall k | 0 <= k < |rest| ensures rest[k].id != s[0].id {
        assert rest[k] in rest;
        var j :| 0 <= j < |s[1..]| && s[1..][j] == rest[k];
        assert s[1..][j] == s[j + 1];
      }
      InsertKeepsDistinctIds(s[0], rest);
    }
  }

  lemma {:induction false} InsertKeepsDistinctIds(x: Record, s: seq<Record>)
    requires DistinctIds(s) && forall k :: 0 <= k < |s| ==> s[k].id != x.id
    ensures DistinctIds(Sorting.Insert(x, s, BoardLess))
  {
    if |s| > 0 && BoardLess(s[0], x) {
      InsertKeepsDistinctIds(x, s[1..]);
      Sorting.InsertMembers(x, s[1..], BoardLess);
      var rest := Sorting.Insert(x, s[1..], BoardLess);
      forall k | 0 <= k < |rest| ensures rest[k].id != s[0].id {
        assert rest[k] in rest;
        if rest[k] != x {
          var j :| 0 <= j < |s[1..]| && s[1..][j] == rest[k];
          assert s[1..][j] == s[j + 1];
        }
      }
    }
  }

  predicate RankLess(a: Entry, b: Entry) { a.rank.Some? && b.rank.Some? && a.rank.value < b.rank.value }

  predicate HasRank(row: Record, ranks: map<Id, nat>) { row.id in ranks && !row.disqualified }

  /** The entries of the rankable rows, in the order of the query. */
  function Entries(rows: seq<Record>, ranks: map<Id, nat>, extras: Extras): seq<Entry> {
    if |rows| == 0 then []
    else
      var row := rows[|rows| - 1];
      Entries(rows[..|rows| - 1], ranks, extras) +
      if HasRank(row, ranks) then [EntryOf(row, Some(ranks[row.id]), extras(row.id))] else []
  }

  /** The entries of the other rows, which have no rank. */
  function OtherEntries(rows: seq<Record>, ranks: map<Id, nat>, extras: Extras): seq<Entry> {
    if |rows| == 0 then []
    else
      var row := rows[|rows| - 1];
      OtherEntries(rows[..|rows| - 1], ranks, extras) +
      if HasRank(row, ranks) then [] else [EntryOf(row, None, extras(row.id))]
  }

  /** Both lists depend on the ranks only through which rows have one. */
  lemma {:induction false} OtherEntriesMeaning(rows: seq<Record>, all: seq<Record>, ranks: map<Id, nat>, extras: Extras)
    requires DistinctIds(all) && RanksOf(Sorting.StableSort(RankableOnly(all), BoardLess), ranks)
    requires forall r :: r in rows ==> r in all
    ensures OtherEntries(rows, ranks, extras) == Unranked(rows, extras)
  {
    if |rows| > 0 {
      OtherEntriesMeaning(rows[..|rows| - 1], all, ranks, extras);
      RankMeansRankable(all, ranks, rows[|rows| - 1]);
    }
  }

  /** The entries of the rows that cannot be ranked, in the order of the query. */
  function Unranked(rows: seq<Record>, extras: Extras): seq<Entry> {
    if |rows| == 0 then []
    else
      var row := rows[|rows| - 1];
      Unranked(rows[..|rows| - 1], extras) + if Rankable(row) then [] else [EntryOf(row, None, extras(row.id))]
  }

  /** A row has a rank exactly when it is rankable. */
  lemma RankMeansRankable(rows: seq<Record>, ranks: map<Id, nat>, row: Record)
    requires DistinctIds(rows) && row in rows
    requires RanksOf(Sorting.StableSort(RankableOnly(rows), BoardLess), ranks)
    ensures row.id in ranks <==> Rankable(row)
    ensures var sorted := Sorting.StableSort(RankableOnly(rows), BoardLess);
            row.id in ranks ==> 1 <= ranks[row.id] <= |sorted| && sorted[ranks[row.id] - 1] == row
  {
    var kept := RankableOnly(rows);
    var sorted := Sorting.StableSort(kept, BoardLess);
    RankableMembers(rows);
    Sorting.SortMembers(kept, BoardLess);
    if Rankable(row) {
      assert row in sorted;
      var i :| 0 <= i < |sorted| && sorted[i] == row;
      assert sorted[i].id in ranks;
    }
    if row.id in ranks {
      var i :| 0 <= i < |sorted| && sorted[i].id == row.id;
      assert sorted[i] in sorted;
      SameId(rows, sorted[i], row);
    }
  }

  lemma SameId(rows: seq<Record>, a: Record, b: Record)
    requires DistinctIds(rows) && a in rows && b in rows && a.id == b.id
    ensures a == b
  {
  }

  /** The entry of this row. */
  ghost predicate IsEntry(row: Record, ranks: map<Id, nat>, extras: Extras, e: Entry) {
    HasRank(row, ranks) && e == EntryOf(row, Some(ranks[row.id]), extras(row.id))
  }

  lemma {:induction false} EntriesMembers(rows: seq<Record>, ranks: map<Id, nat>, extras: Extras, e: Entry)
    ensures e in Entries(rows, ranks, extras) <==> exists row :: row in rows && IsEntry(row, ranks, extras, e)
  {
    if |rows| > 0 {
      var front, last := rows[..|rows| - 1], rows[|rows| - 1];
      EntriesMembers(front, ranks, extras, e);
      assert forall row :: row in rows <==> row in front || row == last;
      if IsEntry(last, ranks, extras, e) {
        assert e in Entries(rows, ranks, extras);
      }
    }
  }

  /** An entry of the loop is an entry of the ranked arrangement, and the other way round. */
  lemma EntryIsPlaced(rows: seq<Record>, ranks: map<Id, nat>, extras: Extras, e: Entry)
    requires DistinctIds(rows) && RanksOf(Sorting.StableSort(RankableOnly(rows), BoardLess), ranks)
    requires e in Entries(rows, ranks, extras)
    ensures e in Placed(Sorting.StableSort(RankableOnly(rows), BoardLess), extras)
  {
    EntriesMembers(rows, ranks, extras, e);
    var row :| row in rows && IsEntry(row, ranks, extras, e);
    RankMeansRankable(rows, ranks, row);
    assert Placed(Sorting.StableSort(RankableOnly(rows), BoardLess), extras)[ranks[row.id] - 1] == e;
  }

  lemma PlacedIsEntry(rows: seq<Record>, ranks: map<Id, nat>, extras: Extras, e: Entry)
    requires DistinctIds(rows) && RanksOf(Sorting.StableSort(RankableOnly(rows), BoardLess), ranks)
    requires e in Placed(Sorting.StableSort(RankableOnly(rows), BoardLess), extras)
    ensures e in Entries(rows, ranks, extras)
  {
    var kept := RankableOnly(rows);
    var sorted := Sorting.StableSort(kept, BoardLess);
    var i :| 0 <= i < |sorted| && Placed(sorted, extras)[i] == e;
    RankableMembers(rows);
    Sorting.SortMembers(kept, BoardLess);
    assert sorted[i] in sorted;
    assert ranks[sorted[i].id] == i + 1;
    assert IsEntry(sorted[i], ranks, extras, e);
    EntriesMembers(rows, ranks, extras, e);
  }

  lemma {:induction false} EntryIds(rows: seq<Record>, ranks: map<Id, nat>, extras: Extras, k: nat) returns (j: nat)
    requires k < |Entries(rows, ranks, extras)|
    ensures j < |rows| && rows[j].id == Entries(rows, ranks, extras)[k].id
  {
    var front := rows[..|rows| - 1];
    if k < |Entries(front, ranks, extras)| {
      j := EntryIds(front, ranks, extras, k);
    } else {
      j := |rows| - 1;
    }
  }

  lemma {:induction false} EntriesDistinct(rows: seq<Record>, ranks: map<Id, nat>, extras: Extras)
    requires DistinctIds(rows)
    ensures Distinct(Entries(rows, ranks, extras))
  {
    if |rows| > 0 {
      var front, last := rows[..|rows| - 1], rows[|rows| - 1];
      EntriesDistinct(front, ranks, extras);
      var e := Entries(front, ranks, extras);
      forall k | 0 <= k < |e| ensures e[k].id != last.id {
        var j := EntryIds(front, ranks, extras, k);
        assert front[j] == rows[j];
      }
    }
  }

  lemma PlacedOrder(s: seq<Record>, extras: Extras)
    ensures Sorting.Orders(RankLess, Placed(s, extras)) && Sorting.Ordered(Placed(s, extras), RankLess)
  {
  }

  /** Sorting the entries by rank gives ranks 1..n. */
  lemma SortedByRank(rows: seq<Record>, ranks: map<Id, nat>, extras: Extras)
    requires DistinctIds(rows) && RanksOf(Sorting.StableSort(RankableOnly(rows), BoardLess), ranks)
    ensures Sorting.StableSort(Entries(rows, ranks, extras), RankLess) ==
            Placed(Sorting.StableSort(RankableOnly(rows), BoardLess), extras)
  {
    var sorted := Sorting.StableSort(RankableOnly(rows), BoardLess);
    forall e ensures e in Entries(rows, ranks, extras) <==> e in Placed(sorted, extras) {
      if e in Entries(rows, ranks, extras) {
        EntryIsPlaced(rows, ranks, extras, e);
      }
      if e in Placed(sorted, extras) {
        PlacedIsEntry(rows, ranks, extras, e);
      }
    }
    EntriesDistinct(rows, ranks, extras);
    PlacedOrder(sorted, extras);
    SortsTo(Entries(rows, ranks, extras), Placed(sorted, extras));
  }

  lemma SortsTo(entries: seq<Entry>, placed: seq<Entry>)
    requires Sorting.Orders(RankLess, placed) && Sorting.Ordered(placed, RankLess)
    requires Sorting.Members(entries, placed) && Distinct(entries)
    ensures Sorting.StableSort(entries, RankLess) == placed
  {
    Sorting.SortOrdered(entries, RankLess, placed);
    Sorting.SortMembers(entries, RankLess);
    Sorting.OrderedIsUnique(Sorting.StableSort(entries, RankLess), placed, RankLess, placed);
  }

  // ---- What publication adds ---------------------------------------------------------

  /** The position of a submission in an arrangement, from one on. */
  ghost function RankIn(sorted: seq<Record>, id: Id): (rank: Option<nat>)
    ensures rank.None? <==> forall i :: 0 <= i < |sorted| ==> sorted[i].id != id
    ensures rank.Some? ==> 1 <= rank.value <= |sorted| && sorted[rank.value - 1].id == id
  {
    if |sorted| == 0 then None
    else if sorted[|sorted| - 1].id == id then Some(|sorted|)
    else RankIn(sorted[..|sorted| - 1], id)
  }

  /** How many places a submission has gained from the public to the private board. */
  ghost function ChangeIn(rows: seq<Record>, id: Id): Option<int> {
    Gained(RankIn(Arranged(rows, PublicBoard), id), RankIn(Arranged(rows, PrivateBoard), id))
  }

  function Gained(public: Option<nat>, private: Option<nat>): Option<int> {
    if public.Some? && private.Some? then Some(public.value as int - private.value as int) else None
  }

  function RankOf(ranks: map<Id, nat>, id: Id): Option<nat> { if id in ranks then Some(ranks[id]) else None }

  /** What an entry says beyond its row and rank: nothing before the private results are published. */
  ghost predicate Publishes(rows: seq<Record>, published: bool, extras: Extras) {
    forall id: Id :: extras(id) == if published then Extra(ChangeIn(rows, id), true) else PLAIN
  }

  function ChangeOf(publicRanks: map<Id, nat>, privateRanks: map<Id, nat>, id: Id): Option<int> {
    Gained(RankOf(publicRanks, id), RankOf(privateRanks, id))
  }

  lemma RankInMap(sorted: seq<Record>, ranks: map<Id, nat>, id: Id)
    requires DistinctIds(sorted) && RanksOf(sorted, ranks)
    ensures RankIn(sorted, id) == RankOf(ranks, id)
  {
  }

  lemma ArrangedDistinct(rows: seq<Record>, board: Board)
    requires DistinctIds(rows)
    ensures DistinctIds(Arranged(rows, board))
  {
    RankableDistinct(JudgedAll(rows, board));
    SortKeepsDistinctIds(RankableOnly(JudgedAll(rows, board)));
  }

  lemma ExtrasPublish(rows: seq<Record>, publicRanks: map<Id, nat>, privateRanks: map<Id, nat>, published: bool,
                      extras: Extras)
    requires DistinctIds(rows) && RanksOf(Arranged(rows, PublicBoard), publicRanks)
    requires RanksOf(Arranged(rows, PrivateBoard), privateRanks)
    requires forall id: Id :: extras(id) == if published then Extra(ChangeOf(publicRanks, privateRanks, id), true) else PLAIN
    ensures Publishes(rows, published, extras)
  {
    ArrangedDistinct(rows, PublicBoard);
    ArrangedDistinct(rows, PrivateBoard);
    forall id: Id ensures extras(id) == if published then Extra(ChangeIn(rows, id), true) else PLAIN {
      ChangeInMaps(rows, publicRanks, privateRanks, id);
    }
  }

  lemma ChangeInMaps(rows: seq<Record>, publicRanks: map<Id, nat>, privateRanks: map<Id, nat>, id: Id)
    requires DistinctIds(Arranged(rows, PublicBoard)) && RanksOf(Arranged(rows, PublicBoard), publicRanks)
    requires DistinctIds(Arranged(rows, PrivateBoard)) && RanksOf(Arranged(rows, PrivateBoard), privateRanks)
    ensures ChangeIn(rows, id) == ChangeOf(publicRanks, privateRanks, id)
  {
    RankInMap(Arranged(rows, PublicBoard), publicRanks, id);
    RankInMap(Arranged(rows, PrivateBoard), privateRanks, id);
  }

  // ---- What a board says, read off the rows ------------------------------------------

  function VerdictOn(r: Record, board: Board): Option<Verdict> {
    match board case PublicBoard => r.publicVerdict case PrivateBoard => r.privateVerdict
  }

  function ScoreOn(r: Record, board: Board): Option<string> {
    match board case PublicBoard => r.publicScore case PrivateBoard => r.privateScore
  }

  /** A board ranks what it accepts with a score and nobody disqualified. */
  predicate RankedOn(r: Record, board: Board) {
    !r.disqualified && VerdictOn(r, board) == Some(Accepted) && ScoreOn(r, board).Some?
  }

  /** Scores are digit strings, as their columns and the runner's schema demand. */
  ghost predicate DigitScores(rows: seq<Record>) {
    forall r, board :: r in rows && ScoreOn(r, board).Some? ==> DigitString(ScoreOn(r, board).value)
  }

  function Points(score: Option<string>): nat {
    if score.Some? && DigitString(score.value) then Number(score.value) else 0
  }

  /** x ranks ahead of y: by the smaller score, then the earlier start, then as the rows come. */
  ghost predicate Ahead(rows: seq<Record>, board: Board, x: Record, y: Record) {
    || Points(ScoreOn(x, board)) < Points(ScoreOn(y, board))
    || (Points(ScoreOn(x, board)) == Points(ScoreOn(y, board)) &&
        (x.startedAt < y.startedAt || (x.startedAt == y.startedAt && Sorting.Before(rows, x, y))))
  }

  /** One more than the number of ranked rows ahead. */
  ghost function RankOn(rows: seq<Record>, board: Board, r: Record): nat {
    1 + |set x | x in rows && RankedOn(x, board) && Ahead(rows, board, x, r)|
  }

  ghost predicate AllScored(rows: seq<Record>) {
    forall r :: r in rows ==> Rankable(r) && DigitString(r.privateScore.value)
  }

  lemma {:induction false} RankableInPlace(rows: seq<Record>, a: Record, b: Record)
    requires DistinctIds(rows) && Rankable(a) && Rankable(b)
    ensures Sorting.Before(RankableOnly(rows), a, b) <==> Sorting.Before(rows, a, b)
  {
    if |rows| > 0 {
      var front, last := rows[..|rows| - 1], rows[|rows| - 1];
      assert rows == front + [last] && last !in front;
      RankableInPlace(front, a, b);
      RankableMembers(front);
      Sorting.SnocBefore(front, last, a, b);
      if Rankable(last) {
        Sorting.SnocBefore(RankableOnly(front), last, a, b);
        assert RankableOnly(rows) == RankableOnly(front) + [last];
      } else {
        assert RankableOnly(rows) == RankableOnly(front);
      }
    }
  }

  lemma JudgedMembers(rows: seq<Record>, board: Board)
    requires DistinctIds(rows)
    ensures DistinctIds(JudgedAll(rows, board))
    ensures forall r :: r in rows ==> Judged(r, board) in JudgedAll(rows, board)
    ensures forall j :: j in JudgedAll(rows, board) ==> exists r :: r in rows && Judged(r, board) == j
  {
    var judged := JudgedAll(rows, board);
    forall r | r in rows ensures Judged(r, board) in judged {
      var i :| 0 <= i < |rows| && rows[i] == r;
      assert judged[i] == Judged(r, board);
    }
    forall j | j in judged ensures exists r :: r in rows && Judged(r, board) == j {
      var i :| 0 <= i < |judged| && judged[i] == j;
      assert rows[i] in rows;
    }
  }

  lemma JudgedInPlace(rows: seq<Record>, board: Board, x: Record, y: Record)
    requires DistinctIds(rows) && x in rows && y in rows
    ensures Sorting.Before(JudgedAll(rows, board), Judged(x, board), Judged(y, board)) <==> Sorting.Before(rows, x, y)
  {
    var judged := JudgedAll(rows, board);
    if Sorting.Before(rows, x, y) {
      var i, j :| 0 <= i < j < |rows| && rows[i] == x && rows[j] == y;
      assert judged[i] == Judged(x, board) && judged[j] == Judged(y, board);
    }
    if Sorting.Before(judged, Judged(x, board), Judged(y, board)) {
      var i, j :| 0 <= i < j < |judged| && judged[i] == Judged(x, board) && judged[j] == Judged(y, board);
      assert rows[i].id == x.id && rows[j].id == y.id;
      SameId(rows, rows[i], x);
      SameId(rows, rows[j], y);
    }
  }

  /** The comparison of the server compares numbers. */
  lemma BoardWeak(kept: seq<Record>)
    requires AllScored(kept)
    ensures Sorting.WeaklyOrders(BoardLess, kept)
    ensures forall a, b :: a in kept && b in kept ==>
              (BoardLess(a, b) <==> Score(a) < Score(b) || (Score(a) == Score(b) && a.startedAt < b.startedAt))
  {
    forall a, b | a in kept && b in kept
      ensures BoardLess(a, b) <==> Score(a) < Score(b) || (Score(a) == Score(b) && a.startedAt < b.startedAt)
    {
      CompareDecimalIsNumeric(a.privateScore.value, b.privateScore.value);
    }
  }

  lemma KeptScored(rows: seq<Record>, board: Board)
    requires DistinctIds(rows) && DigitScores(rows)
    ensures var kept := RankableOnly(JudgedAll(rows, board));
            && AllScored(kept) && DistinctIds(kept)
            && (forall r :: r in rows ==> (Judged(r, board) in kept <==> RankedOn(r, board)))
            && forall k :: k in kept ==> exists r :: r in rows && RankedOn(r, board) && Judged(r, board) == k
  {
    var judged := JudgedAll(rows, board);
    JudgedMembers(rows, board);
    RankableMembers(judged);
    RankableDistinct(judged);
    forall k | k in RankableOnly(judged)
      ensures exists r :: r in rows && RankedOn(r, board) && Judged(r, board) == k
      ensures DigitString(k.privateScore.value)
    {
      var r :| r in rows && Judged(r, board) == k;
      assert RankedOn(r, board) && ScoreOn(r, board) == k.privateScore;
    }
  }

  lemma AheadPrecedes(rows: seq<Record>, board: Board, x: Record, y: Record)
    requires DistinctIds(rows) && DigitScores(rows) && x in rows && y in rows && RankedOn(x, board) && RankedOn(y, board)
    ensures Ahead(rows, board, x, y) <==>
            Sorting.Precedes(RankableOnly(JudgedAll(rows, board)), BoardLess, Judged(x, board), Judged(y, board))
  {
    KeptScored(rows, board);
    var kept := RankableOnly(JudgedAll(rows, board));
    BoardWeak(kept);
    JudgedMembers(rows, board);
    RankableInPlace(JudgedAll(rows, board), Judged(x, board), Judged(y, board));
    JudgedInPlace(rows, board, x, y);
    assert Score(Judged(x, board)) == Points(ScoreOn(x, board)) && Score(Judged(y, board)) == Points(ScoreOn(y, board));
  }

  /** The place of a row in the arrangement is its rank. */
  lemma ArrangedIsRanked(rows: seq<Record>, board: Board, i: nat) returns (r: Record)
    requires DistinctIds(rows) && DigitScores(rows) && i < |Arranged(rows, board)|
    ensures r in rows && RankedOn(r, board) && Arranged(rows, board)[i] == Judged(r, board)
    ensures RankOn(rows, board, r) == i + 1
  {
    var kept := RankableOnly(JudgedAll(rows, board));
    KeptScored(rows, board);
    BoardWeak(kept);
    Sorting.SortMembers(kept, BoardLess);
    assert Arranged(rows, board)[i] in kept;
    r :| r in rows && RankedOn(r, board) && Judged(r, board) == Arranged(rows, board)[i];
    Sorting.PlaceIsCount(kept, BoardLess, i);
    var ahead := set x | x in rows && RankedOn(x, board) && Ahead(rows, board, x, r);
    var before := set k | k in kept && Sorting.Precedes(kept, BoardLess, k, Arranged(rows, board)[i]);
    AheadImage(rows, board, r, ahead, before);
  }

  lemma AheadImage(rows: seq<Record>, board: Board, r: Record, ahead: set<Record>, before: set<Record>)
    requires DistinctIds(rows) && DigitScores(rows) && r in rows && RankedOn(r, board)
    requires ahead == set x | x in rows && RankedOn(x, board) && Ahead(rows, board, x, r)
    requires var kept := RankableOnly(JudgedAll(rows, board));
             before == set k | k in kept && Sorting.Precedes(kept, BoardLess, k, Judged(r, board))
    ensures |ahead| == |before|
  {
    KeptScored(rows, board);
    forall x, y | x in ahead && y in ahead && Judged(x, board) == Judged(y, board) ensures x == y {
      SameId(rows, x, y);
    }
    forall x | x in ahead ensures Judged(x, board) in before {
      AheadPrecedes(rows, board, x, r);
    }
    forall k | k in before ensures exists x :: x in ahead && Judged(x, board) == k {
      var x :| x in rows && RankedOn(x, board) && Judged(x, board) == k;
      AheadPrecedes(rows, board, x, r);
    }
    ImageSize(ahead, x => Judged(x, board), before);
  }

  /** What an entry says of its row. */
  ghost predicate EntrySays(rows: seq<Record>, board: Board, published: bool, r: Record, e: Entry) {
    && e.user == r.user && e.id == r.id && e.language == r.language && e.submittedAt == r.startedAt / 1000
    && e.score == ScoreOn(r, board) && e.source == published && e.verdict == VerdictShown(r, VerdictOn(r, board))
    && e.rank == (if RankedOn(r, board) then Some(RankOn(rows, board, r)) else None)
    && e.change == if published && RankedOn(r, PublicBoard) && RankedOn(r, PrivateBoard)
                   then Some(RankOn(rows, PublicBoard, r) as int - RankOn(rows, PrivateBoard, r) as int) else None
  }

  function VerdictShown(r: Record, verdict: Option<Verdict>): EntryVerdict {
    if r.disqualified then IsDisqualified
    else match verdict case Some(v) => Of(v) case None => InfrastructureError
  }

  ghost predicate SaysSome(rows: seq<Record>, board: Board, published: bool, e: Entry) {
    exists r :: r in rows && EntrySays(rows, board, published, r, e)
  }

  /** The board has one entry for every row, in one of its lists: the ranked ones by rank from one on. */
  ghost predicate BoardSays(rows: seq<Record>, board: Board, published: bool, ranked: seq<Entry>, others: seq<Entry>) {
    && |ranked| + |others| == |rows|
    && (forall i :: 0 <= i < |ranked| ==> ranked[i].rank == Some(i + 1) && SaysSome(rows, board, published, ranked[i]))
    && (forall e :: e in others ==> e.rank.None? && SaysSome(rows, board, published, e))
    && (forall r :: r in rows ==> exists e :: e in (if RankedOn(r, board) then ranked else others) &&
                                              EntrySays(rows, board, published, r, e))
  }

  lemma {:induction false} UnrankedSize(rows: seq<Record>, extras: Extras)
    ensures |RankableOnly(rows)| + |Unranked(rows, extras)| == |rows|
  {
    if |rows| > 0 {
      UnrankedSize(rows[..|rows| - 1], extras);
    }
  }

  lemma {:induction false} UnrankedMembers(rows: seq<Record>, extras: Extras, e: Entry)
    ensures e in Unranked(rows, extras) <==>
            exists r :: r in rows && !Rankable(r) && e == EntryOf(r, None, extras(r.id))
  {
    if |rows| > 0 {
      var front, last := rows[..|rows| - 1], rows[|rows| - 1];
      UnrankedMembers(front, extras, e);
      assert forall r :: r in rows <==> r in front || r == last;
    }
  }

  lemma RankInIsRank(rows: seq<Record>, board: Board, r: Record)
    requires DistinctIds(rows) && DigitScores(rows) && r in rows
    ensures RankIn(Arranged(rows, board), r.id) == if RankedOn(r, board) then Some(RankOn(rows, board, r)) else None
  {
    var sorted := Arranged(rows, board);
    var rank := RankIn(sorted, r.id);
    if rank.Some? {
      var x := ArrangedIsRanked(rows, board, rank.value - 1);
      SameId(rows, x, r);
    } else if RankedOn(r, board) {
      KeptScored(rows, board);
      Sorting.SortMembers(RankableOnly(JudgedAll(rows, board)), BoardLess);
      assert false;
    }
  }

  lemma RowSays(rows: seq<Record>, board: Board, published: bool, extras: Extras, r: Record)
    requires DistinctIds(rows) && DigitScores(rows) && r in rows && Publishes(rows, published, extras)
    ensures EntrySays(rows, board, published, r,
                      EntryOf(Judged(r, board), if RankedOn(r, board) then Some(RankOn(rows, board, r)) else None,
                              extras(r.id)))
  {
    RankInIsRank(rows, PublicBoard, r);
    RankInIsRank(rows, PrivateBoard, r);
    assert extras(r.id) == if published then Extra(ChangeIn(rows, r.id), true) else PLAIN;
  }

  lemma PlaceSays(rows: seq<Record>, board: Board, published: bool, extras: Extras, i: nat)
    requires DistinctIds(rows) && DigitScores(rows) && Publishes(rows, published, extras) && i < |Arranged(rows, board)|
    ensures SaysSome(rows, board, published, Placed(Arranged(rows, board), extras)[i])
  {
    var r := ArrangedIsRanked(rows, board, i);
    RowSays(rows, board, published, extras, r);
  }

  lemma RankedIsPlaced(rows: seq<Record>, board: Board, published: bool, extras: Extras, r: Record)
    requires DistinctIds(rows) && DigitScores(rows) && Publishes(rows, published, extras) && r in rows && RankedOn(r, board)
    ensures exists e :: e in Placed(Arranged(rows, board), extras) && EntrySays(rows, board, published, r, e)
  {
    RankInIsRank(rows, board, r);
    var i := RankOn(rows, board, r) - 1;
    var x := ArrangedIsRanked(rows, board, i);
    SameId(rows, x, r);
    RowSays(rows, board, published, extras, r);
    assert Placed(Arranged(rows, board), extras)[i] in Placed(Arranged(rows, board), extras);
  }

  lemma RankedSays(rows: seq<Record>, board: Board, published: bool, extras: Extras)
    requires DistinctIds(rows) && DigitScores(rows) && Publishes(rows, published, extras)
    ensures var ranked := Placed(Arranged(rows, board), extras);
            && |ranked| == |RankableOnly(JudgedAll(rows, board))|
            && (forall i :: 0 <= i < |ranked| ==> ranked[i].rank == Some(i + 1) && SaysSome(rows, board, published, ranked[i]))
            && forall r :: r in rows && RankedOn(r, board) ==>
                             exists e :: e in ranked && EntrySays(rows, board, published, r, e)
  {
    var ranked := Placed(Arranged(rows, board), extras);
    Sorting.SortMembers(RankableOnly(JudgedAll(rows, board)), BoardLess);
    forall i | 0 <= i < |ranked| ensures SaysSome(rows, board, published, ranked[i]) {
      PlaceSays(rows, board, published, extras, i);
    }
    forall r | r in rows && RankedOn(r, board)
      ensures exists e :: e in ranked && EntrySays(rows, board, published, r, e)
    {
      RankedIsPlaced(rows, board, published, extras, r);
    }
  }

  lemma OtherSays(rows: seq<Record>, board: Board, published: bool, extras: Extras, e: Entry)
    requires DistinctIds(rows) && DigitScores(rows) && Publishes(rows, published, extras)
    requires e in Unranked(JudgedAll(rows, board), extras)
    ensures e.rank.None? && SaysSome(rows, board, published, e)
  {
    var judged := JudgedAll(rows, board);
    JudgedMembers(rows, board);
    UnrankedMembers(judged, extras, e);
    var j :| j in judged && !Rankable(j) && e == EntryOf(j, None, extras(j.id));
    var r :| r in rows && Judged(r, board) == j;
    RowSays(rows, board, published, extras, r);
  }

  lemma OtherIsThere(rows: seq<Record>, board: Board, published: bool, extras: Extras, r: Record)
    requires DistinctIds(rows) && DigitScores(rows) && Publishes(rows, published, extras)
    requires r in rows && !RankedOn(r, board)
    ensures exists e :: e in Unranked(JudgedAll(rows, board), extras) && EntrySays(rows, board, published, r, e)
  {
    var e := EntryOf(Judged(r, board), None, extras(r.id));
    JudgedMembers(rows, board);
    RowSays(rows, board, published, extras, r);
    UnrankedMembers(JudgedAll(rows, board), extras, e);
    assert e in Unranked(JudgedAll(rows, board), extras);
  }

  lemma OthersSay(rows: seq<Record>, board: Board, published: bool, extras: Extras)
    requires DistinctIds(rows) && DigitScores(rows) && Publishes(rows, published, extras)
    ensures var others := Unranked(JudgedAll(rows, board), extras);
            && |RankableOnly(JudgedAll(rows, board))| + |others| == |rows|
            && (forall e :: e in others ==> e.rank.None? && SaysSome(rows, board, published, e))
            && forall r :: r in rows && !RankedOn(r, board) ==>
                             exists e :: e in others && EntrySays(rows, board, published, r, e)
  {
    var others := Unranked(JudgedAll(rows, board), extras);
    UnrankedSize(JudgedAll(rows, board), extras);
    forall e | e in others ensures e.rank.None? && SaysSome(rows, board, published, e) {
      OtherSays(rows, board, published, extras, e);
    }
    forall r | r in rows && !RankedOn(r, board)
      ensures exists e :: e in others && EntrySays(rows, board, published, r, e)
    {
      OtherIsThere(rows, board, published, extras, r);
    }
  }

  // ---- The server: buildLeaderboard --------------------------------------------------

  /** The map has the rank of every ranked row and of nothing else. */
  ghost predicate RanksSay(rows: seq<Record>, board: Board, ranks: map<Id, nat>) {
    && (forall r :: r in rows ==>
          RankOf(ranks, r.id) == if RankedOn(r, board) then Some(RankOn(rows, board, r)) else None)
    && forall id :: id in ranks ==> exists r :: r in rows && r.id == id
  }

  lemma RanksOfSay(rows: seq<Record>, board: Board, ranks: map<Id, nat>)
    requires DistinctIds(rows) && DigitScores(rows) && RanksOf(Arranged(rows, board), ranks)
    ensures RanksSay(rows, board, ranks)
  {
    ArrangedDistinct(rows, board);
    forall r | r in rows
      ensures RankOf(ranks, r.id) == if RankedOn(r, board) then Some(RankOn(rows, board, r)) else None
    {
      RankInMap(Arranged(rows, board), ranks, r.id);
      RankInIsRank(rows, board, r);
    }
    forall id | id in ranks ensures exists r :: r in rows && r.id == id {
      var i :| 0 <= i < |Arranged(rows, board)| && Arranged(rows, board)[i].id == id;
      var r := ArrangedIsRanked(rows, board, i);
    }
  }

  /** The inner function `ranks`, for either board. */
  method Ranks(rows: seq<Record>, board: Board) returns (ranks: map<Id, nat>)
    requires DistinctIds(rows)
    ensures RanksOf(Arranged(rows, board), ranks)
    ensures DigitScores(rows) ==> RanksSay(rows, board, ranks)
  {
    ghost var judged := JudgedAll(rows, board);
    var accepted := [];
    for i := 0 to |rows|
      invariant accepted == RankableOnly(judged[..i])
    {
      assert judged[..i + 1][..i] == judged[..i];
      var row := Judged(rows[i], board);
      if Rankable(row) {
        accepted := accepted + [row];
      }
    }
    assert judged[..|rows|] == judged;
    ranks := Positions(accepted, judged);
    if DigitScores(rows) {
      RanksOfSay(rows, board, ranks);
    }
  }

  /** The sort of `ranks`, and its map of positions. */
  method Positions(accepted: seq<Record>, ghost judged: seq<Record>) returns (ranks: map<Id, nat>)
    requires DistinctIds(judged) && accepted == RankableOnly(judged)
    ensures RanksOf(Sorting.StableSort(accepted, BoardLess), ranks)
  {
    var sorted := Sorting.StableSort(accepted, BoardLess);
    RankableDistinct(judged);
    SortKeepsDistinctIds(accepted);
    ranks := map[];
    for i := 0 to |sorted|
      invariant RanksOf(sorted[..i], ranks)
    {
      RankNext(sorted, i, ranks);
      ranks := ranks[sorted[i].id := i + 1];
    }
    assert sorted[..|sorted|] == sorted;
  }

  /** The loop of buildLeaderboard over the rows. */
  method SplitEntries(rows: seq<Record>, board: Board, ranks: map<Id, nat>, extras: Extras)
    returns (ranked: seq<Entry>, others: seq<Entry>)
    ensures ranked == Entries(JudgedAll(rows, board), ranks, extras)
    ensures others == OtherEntries(JudgedAll(rows, board), ranks, extras)
  {
    ghost var judged := JudgedAll(rows, board);
    ranked, others := [], [];
    for i := 0 to |rows|
      invariant ranked == Entries(judged[..i], ranks, extras)
      invariant others == OtherEntries(judged[..i], ranks, extras)
    {
      assert judged[..i + 1][..i] == judged[..i];
      var row := Judged(rows[i], board);
      if HasRank(row, ranks) {
        ranked := ranked + [EntryOf(row, Some(ranks[row.id]), extras(row.id))];
      } else {
        others := others + [EntryOf(row, None, extras(row.id))];
      }
    }
    assert judged[..|rows|] == judged;
  }

  /** That loop, with the sort that ends it. */
  method ListEntries(rows: seq<Record>, board: Board, ranks: map<Id, nat>, extras: Extras)
    returns (ranked: seq<Entry>, others: seq<Entry>)
    requires DistinctIds(rows) && RanksOf(Arranged(rows, board), ranks)
    ensures ranked == Placed(Arranged(rows, board), extras)
    ensures others == Unranked(JudgedAll(rows, board), extras)
  {
    ranked, others := SplitEntries(rows, board, ranks, extras);
    OtherEntriesMeaning(JudgedAll(rows, board), JudgedAll(rows, board), ranks, extras);
    SortedByRank(JudgedAll(rows, board), ranks, extras);
    ranked := Sorting.StableSort(ranked, RankLess);
  }

  /** buildLeaderboard: one entry for every row.  `ranked` holds ranks 1..n in the order of the board's
      own scores and the starts, `others` every row the board does not rank, as the query returned
      them; every entry shows the board's own verdict and score, and once the private results are
      published its change of rank between the boards. */
  method BuildLeaderboard(rows: seq<Record>, board: Board, published: bool)
    returns (ranked: seq<Entry>, others: seq<Entry>, ghost extras: Extras)
    requires DistinctIds(rows)
    ensures DigitScores(rows) ==> BoardSays(rows, board, published, ranked, others)
    ensures ranked == Placed(Arranged(rows, board), extras) && others == Unranked(JudgedAll(rows, board), extras)
    ensures Publishes(rows, published, extras)
  {
    var publicRanks := Ranks(rows, PublicBoard);
    var privateRanks := Ranks(rows, PrivateBoard);
    var all: Extras := (id: Id) => if published then Extra(ChangeOf(publicRanks, privateRanks, id), true) else PLAIN;
    extras := all;
    ExtrasPublish(rows, publicRanks, privateRanks, published, extras);
    ranked, others := ListEntries(rows, board, if board.PublicBoard? then publicRanks else privateRanks, all);
    if DigitScores(rows) {
      RankedSays(rows, board, published, extras);
      OthersSay(rows, board, published, extras);
    }
  }
}
