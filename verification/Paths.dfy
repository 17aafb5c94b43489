/** The generator's channel paths: how a number of channels is apportioned to five depths,
    and how an index selects the words of a path. */
module Paths {
  const MAX_CHANNEL_DEPTH := 5

  type Word = seq<char>
  type Levels = seq<seq<Word>>

  /** Five non-empty lists of words. */
  predicate LevelsOk(words: Levels) {
    |words| == MAX_CHANNEL_DEPTH && forall i :: 0 <= i < |words| ==> |words[i]| > 0
  }

  function Capacity(words: Levels, depth: nat): nat
    requires depth <= |words|
  {
    if depth == 0 then 1 else Capacity(words, depth - 1) * |words[depth - 1]|
  }

  lemma {:induction false} CapacityPositive(words: Levels, depth: nat)
    requires LevelsOk(words) && depth <= |words|
    ensures Capacity(words, depth) >= 1
  {
    if depth > 0 {
      CapacityPositive(words, depth - 1);
      assert Capacity(words, depth) >= 1 * |words[depth - 1]| by {
        Grow(1, Capacity(words, depth - 1), |words[depth - 1]|);
      }
    }
  }

  lemma Grow(a: nat, b: nat, c: nat)
    requires a <= b
    ensures a * c <= b * c
  {
  }

  /** depthCapacity */
  method DepthCapacity(words: Levels, depth: nat) returns (capacity: nat)
    requires depth <= |words|
    ensures capacity == Capacity(words, depth)
  {
    capacity := 1;
    for i := 0 to depth
      invariant capacity == Capacity(words, i)
    {
      capacity := capacity * |words[i]|;
    }
  }

  function Sum(s: seq<nat>): nat { if |s| == 0 then 0 else Sum(s[..|s| - 1]) + s[|s| - 1] }

  /** All paths there can be. */
  function TotalCapacity(words: Levels, n: nat): nat
    requires n <= |words|
  {
    if n == 0 then 0 else TotalCapacity(words, n - 1) + Capacity(words, n)
  }

  // ---- depthTargets ------------------------------------------------------------------

  const WEIGHTS: seq<nat> := [2, 12, 34, 32, 20]

  function Share(count: nat, depth: nat): nat
    requires depth < MAX_CHANNEL_DEPTH
  {
    count * WEIGHTS[depth] / 100
  }

  /** The most the first pass gives to the depths below `depth`. */
  function MostGiven(count: nat, depth: nat): nat
    requires depth <= MAX_CHANNEL_DEPTH
  {
    if depth == 0 then 0
    else MostGiven(count, depth - 1) + if Share(count, depth - 1) == 0 then 1 else Share(count, depth - 1)
  }

  /** A share of at least one never exceeds what is left, although smaller shares were rounded
      up to one before it. */
  lemma ShareFits(count: nat, depth: nat)
    requires depth < MAX_CHANNEL_DEPTH && Share(count, depth) >= 1
    ensures MostGiven(count, depth) + Share(count, depth) <= count
  {
    var a, b, c, d, e := count * 2 / 100, count * 12 / 100, count * 34 / 100, count * 32 / 100, count * 20 / 100;
    assert Share(count, 0) == a && Share(count, 1) == b && Share(count, 2) == c && Share(count, 3) == d &&
           Share(count, 4) == e;
    SharesFit(count, a, b, c, d, e);
    var up := (x: nat) => if x == 0 then 1 else x;
    assert MostGiven(count, 1) == MostGiven(count, 0) + up(a);
    assert MostGiven(count, 2) == MostGiven(count, 1) + up(b);
    assert MostGiven(count, 3) == MostGiven(count, 2) + up(c);
    assert MostGiven(count, 4) == MostGiven(count, 3) + up(d);
    assert depth == 0 || depth == 1 || depth == 2 || depth == 3 || depth == 4;
  }

  lemma SharesFit(count: nat, a: nat, b: nat, c: nat, d: nat, e: nat)
    requires a == count * 2 / 100 && b == count * 12 / 100 && c == count * 34 / 100 && d == count * 32 / 100
    requires e == count * 20 / 100
    ensures a >= 1 ==> a <= count
    ensures b >= 1 ==> (if a == 0 then 1 else a) + b <= count
    ensures c >= 1 ==> (if a == 0 then 1 else a) + (if b == 0 then 1 else b) + c <= count
    ensures d >= 1 ==> (if a == 0 then 1 else a) + (if b == 0 then 1 else b) + (if c == 0 then 1 else c) + d <= count
    ensures e >= 1 ==> (if a == 0 then 1 else a) + (if b == 0 then 1 else b) + (if c == 0 then 1 else c) +
                       (if d == 0 then 1 else d) + e <= count
  {
  }

  lemma SumUpdate(s: seq<nat>, i: nat, x: nat)
    requires i < |s|
    ensures Sum(s[i := x]) == Sum(s) - s[i] + x
    decreases |s|
  {
    var front, last := s[..|s| - 1], |s| - 1;
    if i < last {
      SumUpdate(front, i, x);
      assert s[i := x][..last] == front[i := x];
    } else {
      assert s[i := x][..last] == front;
    }
  }

  lemma {:induction false} SumZeros(s: seq<nat>)
    requires forall i :: 0 <= i < |s| ==> s[i] == 0
    ensures Sum(s) == 0
  {
    if |s| > 0 {
      SumZeros(s[..|s| - 1]);
    }
  }

  ghost predicate WithinCapacity(words: Levels, targets: seq<nat>) {
    |words| == |targets| && forall d :: 0 <= d < |targets| ==> targets[d] <= Capacity(words, d + 1)
  }

  lemma {:induction false} SumWithin(words: Levels, targets: seq<nat>, n: nat)
    requires WithinCapacity(words, targets) && n <= |targets|
    ensures Sum(targets[..n]) <= TotalCapacity(words, n)
    ensures (forall d :: 0 <= d < n ==> targets[d] == Capacity(words, d + 1)) ==>
              Sum(targets[..n]) == TotalCapacity(words, n)
  {
    if n > 0 {
      SumWithin(words, targets, n - 1);
      assert targets[..n][..n - 1] == targets[..n - 1];
    }
  }

  function Least(a: nat, b: nat): nat { if a < b then a else b }

  /** What the first pass gives a depth when `given` paths went to the depths before it: the whole part
      of its 2, 12, 34, 32 or 20 percent, but at least one while some are left, and no more than the
      depth can hold. */
  ghost function FirstShare(count: nat, words: Levels, depth: nat, given: nat): nat
    requires depth < |words| == MAX_CHANNEL_DEPTH
  {
    var share := count * [2, 12, 34, 32, 20][depth] / 100;
    Least(Capacity(words, depth + 1), if share == 0 && given < count then 1 else share)
  }

  ghost predicate FirstShares(count: nat, words: Levels, first: seq<nat>, n: nat)
    requires n <= |first| == |words| == MAX_CHANNEL_DEPTH
  {
    forall d :: 0 <= d < n ==> first[d] == FirstShare(count, words, d, Sum(first[..d]))
  }

  /** After some whole rounds of one more for every depth with room, and one more for those from depth
      `cut` on. */
  ghost predicate Grown(words: Levels, first: seq<nat>, rounds: nat, cut: nat, targets: seq<nat>) {
    && |targets| == |first| == |words|
    && forall d :: 0 <= d < |targets| ==>
         targets[d] == Least(Capacity(words, d + 1), first[d] + rounds + if d >= cut then 1 else 0)
  }

  /** The count is shared out: first shares, grown evenly and deepest first until it is reached. */
  ghost predicate Apportions(count: nat, words: Levels, targets: seq<nat>) {
    |words| == |targets| == MAX_CHANNEL_DEPTH && Sum(targets) == count &&
    exists first: seq<nat>, rounds: nat, cut: nat ::
      |first| == MAX_CHANNEL_DEPTH && FirstShares(count, words, first, MAX_CHANNEL_DEPTH) &&
      Grown(words, first, rounds, cut, targets)
  }

  lemma {:induction false} SumZerosBehind(s: seq<nat>, n: nat)
    requires n <= |s| && forall i :: n <= i < |s| ==> s[i] == 0
    ensures Sum(s) == Sum(s[..n])
    decreases |s|
  {
    if n < |s| {
      SumZerosBehind(s[..|s| - 1], n);
      assert s[..|s| - 1][..n] == s[..n];
    } else {
      assert s[..n] == s;
    }
  }

  lemma NextShare(count: nat, words: Levels, before: seq<nat>, depth: nat, target: nat)
    requires depth < |before| == |words| == MAX_CHANNEL_DEPTH && FirstShares(count, words, before, depth)
    requires target == FirstShare(count, words, depth, Sum(before[..depth]))
    ensures FirstShares(count, words, before[depth := target], depth + 1)
  {
    var after := before[depth := target];
    forall d | 0 <= d < depth + 1 ensures after[d] == FirstShare(count, words, d, Sum(after[..d])) {
      assert after[..d] == before[..d];
    }
  }

  /** The first pass: each depth's share, at least one while some are left, at most what the
      depth can hold. */
  method FirstPass(count: nat, words: Levels, targets: array<nat>) returns (remaining: nat)
    requires LevelsOk(words) && targets.Length == MAX_CHANNEL_DEPTH
    requires forall d :: 0 <= d < targets.Length ==> targets[d] == 0
    modifies targets
    ensures WithinCapacity(words, targets[..]) && Sum(targets[..]) + remaining == count
    ensures FirstShares(count, words, targets[..], MAX_CHANNEL_DEPTH)
  {
    remaining := count;
    SumZeros(targets[..]);
    for depth := 0 to MAX_CHANNEL_DEPTH
      invariant Sum(targets[..]) + remaining == count && Sum(targets[..]) <= MostGiven(count, depth)
      invariant WithinCapacity(words, targets[..]) && FirstShares(count, words, targets[..], depth)
      invariant forall d :: depth <= d < MAX_CHANNEL_DEPTH ==> targets[d] == 0
    {
      remaining := ShareOut(count, words, targets, depth, remaining);
    }
  }

  /** One depth of the first pass. */
  method ShareOut(count: nat, words: Levels, targets: array<nat>, depth: nat, left: nat) returns (remaining: nat)
    requires LevelsOk(words) && depth < targets.Length == MAX_CHANNEL_DEPTH
    requires Sum(targets[..]) + left == count && Sum(targets[..]) <= MostGiven(count, depth)
    requires WithinCapacity(words, targets[..]) && FirstShares(count, words, targets[..], depth)
    requires forall d :: depth <= d < MAX_CHANNEL_DEPTH ==> targets[d] == 0
    modifies targets
    ensures Sum(targets[..]) + remaining == count && Sum(targets[..]) <= MostGiven(count, depth + 1)
    ensures WithinCapacity(words, targets[..]) && FirstShares(count, words, targets[..], depth + 1)
    ensures forall d :: depth < d < MAX_CHANNEL_DEPTH ==> targets[d] == 0
  {
    ghost var before := targets[..];
    SumZerosBehind(before, depth);
    var target: nat := count * WEIGHTS[depth] / 100;
    if target >= 1 {
      ShareFits(count, depth);
    }
    if target == 0 && left > 0 {
      target := 1;
    }
    var capacity := DepthCapacity(words, depth + 1);
    CapacityPositive(words, depth + 1);
    if target > capacity {
      target := capacity;
    }
    SumUpdate(before, depth, target);
    NextShare(count, words, before, depth, target);
    targets[depth] := target;
    assert targets[..] == before[depth := target];
    remaining := left - target;
  }

  /** One round of the second pass: one more path for every depth that has room, deepest first, until
      none are left; the depths from `cut` on have had their turn. */
  method GrowOnce(words: Levels, targets: array<nat>, left: nat) returns (remaining: nat, added: bool, ghost cut: nat)
    requires LevelsOk(words) && targets.Length == MAX_CHANNEL_DEPTH && left > 0
    requires WithinCapacity(words, targets[..])
    modifies targets
    ensures WithinCapacity(words, targets[..]) && Sum(targets[..]) + remaining == old(Sum(targets[..])) + left
    ensures added ==> remaining < left
    ensures !added ==> remaining == left && forall d :: 0 <= d < targets.Length ==> targets[d] == Capacity(words, d + 1)
    ensures Grown(words, old(targets[..]), 0, cut, targets[..]) && (remaining > 0 ==> cut == 0)
  {
    remaining, added := left, false;
    ghost var start := targets[..];
    var depth := MAX_CHANNEL_DEPTH;
    while depth > 0 && remaining > 0
      invariant 0 <= depth <= MAX_CHANNEL_DEPTH
      invariant WithinCapacity(words, targets[..]) && Sum(targets[..]) + remaining == Sum(start) + left
      invariant if added then remaining < left else remaining == left
      invariant !added ==> forall d :: depth <= d < MAX_CHANNEL_DEPTH ==> targets[d] == Capacity(words, d + 1)
      invariant Grown(words, start, 0, depth, targets[..])
    {
      depth := depth - 1;
      ghost var before := targets[..];
      var grew := GrowDepth(words, targets, depth);
      GrownDown(words, start, before, depth, targets[..]);
      if grew {
        remaining := remaining - 1;
        added := true;
      }
    }
    cut := depth;
  }

  /** One more path for a depth that has room. */
  method GrowDepth(words: Levels, targets: array<nat>, depth: nat) returns (grew: bool)
    requires depth < targets.Length && WithinCapacity(words, targets[..])
    modifies targets
    ensures WithinCapacity(words, targets[..]) && (grew <==> old(targets[depth]) < Capacity(words, depth + 1))
    ensures targets[..] == old(targets[..])[depth := Least(Capacity(words, depth + 1), old(targets[depth]) + 1)]
    ensures Sum(targets[..]) == old(Sum(targets[..])) + if grew then 1 else 0
  {
    ghost var before := targets[..];
    var capacity := DepthCapacity(words, depth + 1);
    grew := targets[depth] < capacity;
    if grew {
      SumUpdate(before, depth, before[depth] + 1);
      targets[depth] := targets[depth] + 1;
    }
    assert targets[..] == before[depth := Least(capacity, before[depth] + 1)];
  }

  lemma GrownDown(words: Levels, start: seq<nat>, before: seq<nat>, depth: nat, after: seq<nat>)
    requires depth < |words| && Grown(words, start, 0, depth + 1, before) && WithinCapacity(words, start)
    requires after == before[depth := Least(Capacity(words, depth + 1), before[depth] + 1)]
    ensures Grown(words, start, 0, depth, after)
  {
  }

  /** A round on top of whole rounds. */
  lemma OneMoreRound(words: Levels, first: seq<nat>, rounds: nat, before: seq<nat>, cut: nat, after: seq<nat>)
    requires Grown(words, first, rounds, |words|, before) && Grown(words, before, 0, cut, after)
    ensures Grown(words, first, rounds, cut, after)
    ensures cut == 0 ==> Grown(words, first, rounds + 1, |words|, after)
  {
  }

  /** depthTargets: succeeds exactly when the depths together can hold so many paths, and then
      hands out exactly that many, by these shares. */
  method DepthTargets(count: nat, words: Levels) returns (ok: bool, targets: array<nat>)
    requires LevelsOk(words)
    ensures fresh(targets) && targets.Length == MAX_CHANNEL_DEPTH && WithinCapacity(words, targets[..])
    ensures ok <==> count <= TotalCapacity(words, MAX_CHANNEL_DEPTH)
    ensures ok ==> Apportions(count, words, targets[..])
  {
    targets := new nat[MAX_CHANNEL_DEPTH](d => 0);
    var remaining := FirstPass(count, words, targets);
    ghost var first, rounds, cut: nat := targets[..], 0, MAX_CHANNEL_DEPTH;
    while remaining > 0
      invariant WithinCapacity(words, targets[..]) && Sum(targets[..]) + remaining == count
      invariant Grown(words, first, rounds, cut, targets[..]) && (remaining > 0 ==> cut == MAX_CHANNEL_DEPTH)
    {
      ghost var before := targets[..];
      var added;
      remaining, added, cut := GrowOnce(words, targets, remaining);
      OneMoreRound(words, first, rounds, before, cut, targets[..]);
      if !added {
        SumWithin(words, targets[..], MAX_CHANNEL_DEPTH);
        assert targets[..][..MAX_CHANNEL_DEPTH] == targets[..];
        return false, targets;
      }
      if remaining > 0 {
        rounds, cut := rounds + 1, MAX_CHANNEL_DEPTH;
      }
    }
    SumWithin(words, targets[..], MAX_CHANNEL_DEPTH);
    assert targets[..][..MAX_CHANNEL_DEPTH] == targets[..];
    ok := true;
  }

  // ---- channelPathForIndex -----------------------------------------------------------

  const SLASH := '/'

  /** The words of an index in mixed radix, first level least significant, from level `from`
      to `depth`. */
  function Parts(words: Levels, from: nat, depth: nat, index: nat): (parts: seq<Word>)
    requires from <= depth <= |words| && forall i :: 0 <= i < |words| ==> |words[i]| > 0
    ensures |parts| == depth - from
    decreases depth - from
  {
    if from == depth then []
    else
      var n := |words[from]|;
      assert index / n >= 0 by { Quotient(index, n); }
      [words[from][index % n]] + Parts(words, from + 1, depth, index / n)
  }

  lemma Quotient(a: nat, b: nat)
    requires b > 0
    ensures a / b >= 0 && a == (a / b) * b + a % b
  {
  }

  function Join(parts: seq<Word>): seq<char> {
    if |parts| == 0 then []
    else if |parts| == 1 then parts[0]
    else parts[0] + [SLASH] + Join(parts[1..])
  }

  function PathOf(words: Levels, depth: nat, index: nat): seq<char>
    requires LevelsOk(words) && depth <= |words|
  {
    Join(Parts(words, 0, depth, index))
  }

  /** The words of a path with slashes between them. */
  ghost predicate Slashed(path: seq<char>, parts: seq<Word>) {
    |parts| > 0 &&
    var n := |parts[0]|;
    if |parts| == 1 then path == parts[0]
    else |path| > n && path[..n] == parts[0] && path[n] == '/' && Slashed(path[n + 1..], parts[1..])
  }

  /** The path has a word of each of the first lists: that of list k at the index's digit k, when list
      sizes are the radices and the first list is the least significant. */
  ghost predicate PathSays(words: Levels, depth: nat, index: nat, path: seq<char>)
    requires LevelsOk(words) && depth <= |words|
  {
    exists parts: seq<Word> :: |parts| == depth && Slashed(path, parts) && PartsSay(words, index, parts)
  }

  ghost predicate PartsSay(words: Levels, index: nat, parts: seq<Word>)
    requires LevelsOk(words) && |parts| <= |words|
  {
    forall k :: 0 <= k < |parts| ==> parts[k] == DigitWord(words, index, k)
  }

  /** What is left of an index behind its first k digits. */
  ghost function Shifted(words: Levels, index: nat, k: nat): nat
    requires LevelsOk(words) && k <= |words|
  {
    CapacityPositive(words, k);
    Quotient(index, Capacity(words, k));
    index / Capacity(words, k)
  }

  ghost function DigitWord(words: Levels, index: nat, k: nat): Word
    requires LevelsOk(words) && k < |words|
  {
    words[k][Shifted(words, index, k) % |words[k]|]
  }

  lemma {:induction false} JoinSlashed(parts: seq<Word>)
    requires |parts| > 0
    ensures Slashed(Join(parts), parts)
  {
    if |parts| > 1 {
      JoinSlashed(parts[1..]);
      var n := |parts[0]|;
      assert Join(parts)[..n] == parts[0] && Join(parts)[n] == SLASH && Join(parts)[n + 1..] == Join(parts[1..]);
    }
  }

  lemma DivideTwice(a: nat, b: nat, c: nat)
    requires b >= 1 && c >= 1
    ensures b * c >= 1 && a / b >= 0 && a / b / c == a / (b * c)
  {
    Quotient(a, b);
    Quotient(a / b, c);
    var q, r := a / b / c, a / b % c;
    TwoQuotients(a, b, c, q, r, a % b);
    QuotientIs(a, b * c, q, r * b + a % b);
  }

  lemma TwoQuotients(a: nat, b: nat, c: nat, q: nat, r: nat, s: nat)
    requires b >= 1 && c >= 1 && a == (q * c + r) * b + s && r < c && s < b
    ensures a == q * (b * c) + (r * b + s) && r * b + s < b * c && b * c >= 1
  {
    assert (q * c + r) * b == q * (b * c) + r * b;
    Grow(r + 1, c, b);
    assert (r + 1) * b == r * b + b;
  }

  lemma QuotientIs(a: nat, b: nat, q: nat, r: nat)
    requires b >= 1 && a == q * b + r && r < b
    ensures a / b == q
  {
    Quotient(a, b);
    var p := a / b;
    assert (p + 1) * b == p * b + b && (q + 1) * b == q * b + b;
    if p < q {
      Grow(p + 1, q, b);
    }
    if p > q {
      Grow(q + 1, p, b);
    }
  }

  /** The loop that divides by one list size after the other takes the digits. */
  lemma {:induction false} PartsAreDigits(words: Levels, from: nat, depth: nat, index: nat, rest: nat)
    requires LevelsOk(words) && from <= depth <= |words| && rest == Shifted(words, index, from)
    ensures forall k :: from <= k < depth ==> Parts(words, from, depth, rest)[k - from] == DigitWord(words, index, k)
    decreases depth - from
  {
    if from < depth {
      var n := |words[from]|;
      CapacityPositive(words, from);
      DivideTwice(index, Capacity(words, from), n);
      PartsAreDigits(words, from + 1, depth, index, rest / n);
      assert Parts(words, from, depth, rest) == [words[from][rest % n]] + Parts(words, from + 1, depth, rest / n);
    }
  }

  lemma PathOfSays(words: Levels, depth: nat, index: nat)
    requires LevelsOk(words) && 1 <= depth <= |words|
    ensures PathSays(words, depth, index, PathOf(words, depth, index))
  {
    var parts := Parts(words, 0, depth, index);
    PartsAreDigits(words, 0, depth, index, index);
    JoinSlashed(parts);
  }

  /** channelPathForIndex: the words at the index's digits, with slashes between them. */
  method ChannelPathForIndex(words: Levels, depth: nat, index: nat) returns (path: seq<char>)
    requires LevelsOk(words) && 1 <= depth <= |words|
    ensures path == PathOf(words, depth, index) && PathSays(words, depth, index, path)
  {
    var parts := SelectParts(words, depth, index);
    path := JoinParts(parts);
    PathOfSays(words, depth, index);
  }

  /** Every choice of words has an index within the capacity. */
  lemma {:induction false} EveryChoice(words: Levels, from: nat, depth: nat, choice: seq<Word>) returns (index: nat)
    requires LevelsOk(words) && from <= depth <= |words| && |choice| == depth - from
    requires forall k :: 0 <= k < |choice| ==> choice[k] in words[from + k]
    ensures index < Radix(words, from, depth) && Parts(words, from, depth, index) == choice
    decreases depth - from
  {
    if from == depth {
      index := 0;
    } else {
      var n := |words[from]|;
      var rest := EveryChoice(words, from + 1, depth, choice[1..]);
      var d :| 0 <= d < n && words[from][d] == choice[0];
      index := rest * n + d;
      QuotientIs(index, n, rest, d);
      Quotient(index, n);
      Grow(rest + 1, Radix(words, from + 1, depth), n);
      assert (rest + 1) * n == rest * n + n;
      assert choice == [choice[0]] + choice[1..];
    }
  }

  /** The capacity of a depth is exactly what it can hold: every path of that depth has an index below
      it. */
  lemma EveryPath(words: Levels, depth: nat, choice: seq<Word>) returns (index: nat)
    requires LevelsOk(words) && depth <= |words| && |choice| == depth
    requires forall k :: 0 <= k < depth ==> choice[k] in words[k]
    ensures index < Capacity(words, depth) && PathOf(words, depth, index) == Join(choice)
  {
    index := EveryChoice(words, 0, depth, choice);
    RadixSplit(words, 0, depth);
  }

  /** Its first loop: one remainder and one quotient per level. */
  method SelectParts(words: Levels, depth: nat, index: nat) returns (parts: seq<Word>)
    requires LevelsOk(words) && depth <= |words|
    ensures parts == Parts(words, 0, depth, index)
  {
    var rest := index;
    parts := [];
    for i := 0 to depth
      invariant rest >= 0 && |parts| == i && parts + Parts(words, i, depth, rest) == Parts(words, 0, depth, index)
    {
      var level := words[i];
      Quotient(rest, |level|);
      ghost var later := Parts(words, i + 1, depth, rest / |level|);
      assert parts + ([level[rest % |level|]] + later) == parts + [level[rest % |level|]] + later;
      parts := parts + [level[rest % |level|]];
      rest := rest / |level|;
    }
  }

  /** Its last loop. */
  method JoinParts(parts: seq<Word>) returns (path: seq<char>)
    ensures path == Join(parts)
  {
    path := [];
    for i := 0 to |parts|
      invariant path == Join(parts[..i])
    {
      JoinSnoc(parts[..i], parts[i]);
      assert parts[..i + 1] == parts[..i] + [parts[i]];
      if i > 0 {
        path := path + [SLASH];
      }
      path := path + parts[i];
    }
    assert parts[..|parts|] == parts;
  }

  lemma {:induction false} JoinSnoc(parts: seq<Word>, last: Word)
    ensures Join(parts + [last]) == if |parts| == 0 then last else Join(parts) + [SLASH] + last
  {
    if |parts| >= 1 {
      assert (parts + [last])[1..] == parts[1..] + [last];
      JoinSnoc(parts[1..], last);
    }
  }

  // ---- Different indices give different paths ----------------------------------------

  predicate SlashFree(w: Word) { forall i :: 0 <= i < |w| ==> w[i] != SLASH }

  /** Five lists of distinct words without slashes. */
  ghost predicate WordsOk(words: Levels) {
    && LevelsOk(words)
    && (forall l, i :: 0 <= l < |words| && 0 <= i < |words[l]| ==> SlashFree(words[l][i]))
    && (forall l, i, j :: 0 <= l < |words| && 0 <= i < j < |words[l]| ==> words[l][i] != words[l][j])
  }

  ghost predicate AllSlashFree(parts: seq<Word>) { forall i :: 0 <= i < |parts| ==> SlashFree(parts[i]) }

  /** The position of the first slash, or the length. */
  function FirstSlash(s: seq<char>): nat {
    if |s| == 0 || s[0] == SLASH then 0 else 1 + FirstSlash(s[1..])
  }

  lemma {:induction false} SlashAfterWord(a: Word, x: seq<char>)
    requires SlashFree(a) && (x == [] || x[0] == SLASH)
    ensures FirstSlash(a + x) == |a|
  {
    if |a| > 0 {
      assert (a + x)[1..] == a[1..] + x;
      SlashAfterWord(a[1..], x);
    } else {
      assert a + x == x;
    }
  }

  /** Words up to the first slash are determined. */
  lemma FirstWord(a: Word, b: Word, x: seq<char>, y: seq<char>)
    requires SlashFree(a) && SlashFree(b) && a + x == b + y
    requires x == [] || x[0] == SLASH
    requires y == [] || y[0] == SLASH
    ensures a == b && x == y
  {
    SlashAfterWord(a, x);
    SlashAfterWord(b, y);
    assert a == (a + x)[..|a|] && b == (b + y)[..|b|];
    assert x == (a + x)[|a|..] && y == (b + y)[|b|..];
  }

  function Rest(parts: seq<Word>): seq<char>
    requires |parts| > 0
  {
    if |parts| == 1 then [] else [SLASH] + Join(parts[1..])
  }

  /** A path determines its words. */
  lemma {:induction false} JoinInjective(a: seq<Word>, b: seq<Word>)
    requires AllSlashFree(a) && AllSlashFree(b) && |a| > 0 && |b| > 0 && Join(a) == Join(b)
    ensures a == b
  {
    JoinRest(a);
    JoinRest(b);
    FirstWord(a[0], b[0], Rest(a), Rest(b));
    if |a| > 1 {
      JoinInjective(a[1..], b[1..]);
      assert a == [a[0]] + a[1..] && b == [b[0]] + b[1..];
    } else {
      assert a == [a[0]] && b == [b[0]];
    }
  }

  lemma JoinRest(a: seq<Word>)
    requires |a| > 0
    ensures Join(a) == a[0] + Rest(a)
    ensures Rest(a) == [] <==> |a| == 1
    ensures |a| > 1 ==> Rest(a)[0] == SLASH && Rest(a)[1..] == Join(a[1..])
  {
    if |a| > 1 {
      Reassociate(a[0], [SLASH], Join(a[1..]));
    }
  }

  lemma Reassociate(a: seq<char>, b: seq<char>, c: seq<char>)
    ensures a + b + c == a + (b + c)
  {
  }

  lemma {:induction false} PartsSlashFree(words: Levels, from: nat, depth: nat, index: nat)
    requires WordsOk(words) && from <= depth <= |words|
    ensures AllSlashFree(Parts(words, from, depth, index))
    decreases depth - from
  {
    if from < depth {
      Quotient(index, |words[from]|);
      PartsSlashFree(words, from + 1, depth, index / |words[from]|);
      assert SlashFree(words[from][index % |words[from]|]);
    }
  }

  /** The product of the list sizes from level `from` to `depth`. */
  function Radix(words: Levels, from: nat, depth: nat): nat
    requires from <= depth <= |words|
    decreases depth - from
  {
    if from == depth then 1 else |words[from]| * Radix(words, from + 1, depth)
  }

  lemma QuotientBelow(index: nat, n: nat, bound: nat)
    requires n > 0 && index < n * bound
    ensures 0 <= index / n < bound
  {
  }

  /** Mixed radix is injective below the product of the sizes. */
  lemma {:induction false} PartsInjective(words: Levels, from: nat, depth: nat, i: nat, j: nat)
    requires WordsOk(words) && from <= depth <= |words|
    requires i < Radix(words, from, depth) && j < Radix(words, from, depth)
    requires Parts(words, from, depth, i) == Parts(words, from, depth, j)
    ensures i == j
    decreases depth - from
  {
    if from < depth {
      var n := |words[from]|;
      var a, b := Parts(words, from, depth, i), Parts(words, from, depth, j);
      QuotientBelow(i, n, Radix(words, from + 1, depth));
      QuotientBelow(j, n, Radix(words, from + 1, depth));
      Quotient(i, n);
      Quotient(j, n);
      assert a[0] == words[from][i % n] && b[0] == words[from][j % n];
      assert a[1..] == Parts(words, from + 1, depth, i / n) && b[1..] == Parts(words, from + 1, depth, j / n);
      PartsInjective(words, from + 1, depth, i / n, j / n);
    }
  }

  lemma {:induction false} RadixSplit(words: Levels, from: nat, depth: nat)
    requires from <= depth <= |words|
    ensures Capacity(words, depth) == Capacity(words, from) * Radix(words, from, depth)
    decreases depth - from
  {
    if from < depth {
      RadixSplit(words, from + 1, depth);
      Associate(Capacity(words, from), |words[from]|, Radix(words, from + 1, depth));
    }
  }

  lemma Associate(a: nat, b: nat, c: nat)
    ensures a * b * c == a * (b * c)
  {
  }

  /** Within their capacities, different depths or indices give different paths. */
  lemma PathInjective(words: Levels, d: nat, i: nat, e: nat, j: nat)
    requires WordsOk(words) && 1 <= d <= |words| && 1 <= e <= |words|
    requires i < Capacity(words, d) && j < Capacity(words, e)
    requires PathOf(words, d, i) == PathOf(words, e, j)
    ensures d == e && i == j
  {
    PartsSlashFree(words, 0, d, i);
    PartsSlashFree(words, 0, e, j);
    JoinInjective(Parts(words, 0, d, i), Parts(words, 0, e, j));
    RadixSplit(words, 0, d);
    PartsInjective(words, 0, d, i, j);
  }

  // ---- buildChannelPaths -------------------------------------------------------------

  /** Where a path of the result comes from. */
  ghost predicate ComesFrom(words: Levels, targets: seq<nat>, path: seq<char>, d: nat, i: nat)
    requires LevelsOk(words) && |targets| == |words|
  {
    d < |targets| && i < targets[d] && path == PathOf(words, d + 1, i)
  }

  /** The first n paths of the result, with their origins in order. */
  ghost predicate Built(words: Levels, targets: seq<nat>, paths: seq<seq<char>>, from: seq<(nat, nat)>)
    requires LevelsOk(words) && |targets| == |words|
  {
    && |from| == |paths|
    && (forall k :: 0 <= k < |paths| ==> ComesFrom(words, targets, paths[k], from[k].0, from[k].1))
    && (forall k, l :: 0 <= k < l < |paths| ==> from[k] != from[l])
  }

  /** Paths of different origins are different. */
  lemma BuiltDistinct(words: Levels, targets: seq<nat>, paths: seq<seq<char>>, from: seq<(nat, nat)>)
    requires WordsOk(words) && WithinCapacity(words, targets) && Built(words, targets, paths, from)
    ensures forall k, l :: 0 <= k < l < |paths| ==> paths[k] != paths[l]
  {
    forall k, l | 0 <= k < l < |paths| ensures paths[k] != paths[l] {
      if paths[k] == paths[l] {
        assert from[k] != from[l];
        PathInjective(words, from[k].0 + 1, from[k].1, from[l].0 + 1, from[l].1);
      }
    }
  }

  /** Depth by depth, as many paths as its share, of the indices from zero on. */
  ghost predicate InOrder(words: Levels, shares: seq<nat>, paths: seq<seq<char>>, n: nat)
    requires LevelsOk(words) && n <= |shares| == |words|
  {
    |paths| == Sum(shares[..n]) &&
    forall d, i :: 0 <= d < n && 0 <= i < shares[d] ==> HasPath(words, shares, paths, d, i)
  }

  ghost predicate HasPath(words: Levels, shares: seq<nat>, paths: seq<seq<char>>, d: nat, i: nat)
    requires LevelsOk(words) && d < |shares| == |words|
  {
    var k := Sum(shares[..d]) + i;
    k < |paths| && PathSays(words, d + 1, i, paths[k])
  }

  lemma DepthInOrder(words: Levels, shares: seq<nat>, paths: seq<seq<char>>, depth: nat, more: seq<seq<char>>)
    requires LevelsOk(words) && depth < |shares| == |words| && InOrder(words, shares, paths, depth)
    requires |more| == shares[depth] && forall i :: 0 <= i < |more| ==> PathSays(words, depth + 1, i, more[i])
    ensures InOrder(words, shares, paths + more, depth + 1)
  {
    assert shares[..depth + 1][..depth] == shares[..depth];
    forall d, i | 0 <= d < depth + 1 && 0 <= i < shares[d]
      ensures HasPath(words, shares, paths + more, d, i)
    {
      if d < depth {
        assert HasPath(words, shares, paths, d, i);
      }
    }
  }

  /** buildChannelPaths: exactly `count` distinct paths whenever there are that many, depth by depth by
      the shares, and each with the words of its index. */
  method BuildChannelPaths(count: nat, words: Levels) returns (ok: bool, paths: seq<seq<char>>, ghost shares: seq<nat>)
    requires WordsOk(words)
    ensures ok <==> count <= TotalCapacity(words, MAX_CHANNEL_DEPTH)
    ensures ok ==> |paths| == count && forall k, l :: 0 <= k < l < |paths| ==> paths[k] != paths[l]
    ensures ok ==> Apportions(count, words, shares) && InOrder(words, shares, paths, MAX_CHANNEL_DEPTH)
  {
    paths := [];
    var targets;
    ok, targets := DepthTargets(count, words);
    shares := targets[..];
    if !ok {
      return;
    }
    ghost var goals, from := targets[..], [];
    for depth := 0 to MAX_CHANNEL_DEPTH
      invariant targets[..] == goals
      invariant Built(words, goals, paths, from) && InOrder(words, goals, paths, depth)
      invariant forall k :: 0 <= k < |from| ==> from[k].0 < depth
    {
      var more;
      more := PathsOfDepth(words, depth, targets[depth], goals);
      from := Extend(words, goals, paths, from, depth, more);
      DepthInOrder(words, goals, paths, depth, more);
      paths := paths + more;
      assert goals[..depth + 1][..depth] == goals[..depth];
    }
    assert goals[..MAX_CHANNEL_DEPTH] == goals;
    BuiltDistinct(words, goals, paths, from);
  }

  /** The inner loop. */
  method PathsOfDepth(words: Levels, depth: nat, target: nat, ghost goals: seq<nat>) returns (paths: seq<seq<char>>)
    requires LevelsOk(words) && depth < |words|
    ensures |paths| == target && forall i :: 0 <= i < target ==> paths[i] == PathOf(words, depth + 1, i)
    ensures forall i :: 0 <= i < target ==> PathSays(words, depth + 1, i, paths[i])
  {
    paths := [];
    for i := 0 to target
      invariant |paths| == i && forall k :: 0 <= k < i ==> paths[k] == PathOf(words, depth + 1, k)
    {
      var path := ChannelPathForIndex(words, depth + 1, i);
      paths := paths + [path];
    }
    PathsSay(words, depth, paths);
  }

  lemma PathsSay(words: Levels, depth: nat, paths: seq<seq<char>>)
    requires LevelsOk(words) && depth < |words| && forall i :: 0 <= i < |paths| ==> paths[i] == PathOf(words, depth + 1, i)
    ensures forall i :: 0 <= i < |paths| ==> PathSays(words, depth + 1, i, paths[i])
  {
    forall i | 0 <= i < |paths| ensures PathSays(words, depth + 1, i, paths[i]) {
      PathOfSays(words, depth + 1, i);
    }
  }

  lemma Extend(words: Levels, targets: seq<nat>, paths: seq<seq<char>>, from: seq<(nat, nat)>, depth: nat,
               more: seq<seq<char>>)
    returns (longer: seq<(nat, nat)>)
    requires LevelsOk(words) && |targets| == |words| && depth < |words| && |more| == targets[depth]
    requires Built(words, targets, paths, from) && forall k :: 0 <= k < |from| ==> from[k].0 < depth
    requires forall i :: 0 <= i < |more| ==> more[i] == PathOf(words, depth + 1, i)
    ensures Built(words, targets, paths + more, longer)
    ensures forall k :: 0 <= k < |longer| ==> longer[k].0 < depth + 1
  {
    longer := from + seq(|more|, i requires 0 <= i < |more| => (depth, i));
    var all := paths + more;
    forall k | 0 <= k < |all| ensures ComesFrom(words, targets, all[k], longer[k].0, longer[k].1) {
      if k < |paths| {
        assert ComesFrom(words, targets, paths[k], from[k].0, from[k].1);
      }
    }
  }
}
