/** Sequences without repetitions and the sizes of sets, for every other module. */
module Collections {
  ghost predicate Distinct<T(!new)>(s: seq<T>) {
    forall i, j :: 0 <= i < j < |s| ==> s[i] != s[j]
  }

  lemma {:induction false} SubsetSize<T>(a: set<T>, b: set<T>)
    requires a <= b
    ensures |a| <= |b|
  {
    if a != {} {
      var x :| x in a;
      SubsetSize(a - {x}, b - {x});
    }
  }

  /** Distinct elements of a set are no more than the set has. */
  lemma {:induction false} DistinctSize<T(!new)>(s: seq<T>, universe: set<T>)
    requires Distinct(s) && forall i :: 0 <= i < |s| ==> s[i] in universe
    ensures |s| <= |universe|
    decreases |s|
  {
    if |s| > 0 {
      var front, last := s[..|s| - 1], s[|s| - 1];
      forall i | 0 <= i < |front| ensures front[i] in universe - {last} {
        assert front[i] == s[i] != last;
      }
      DistinctSize(front, universe - {last});
    }
  }

  /** A set of elements of a sequence is no larger than the sequence. */
  lemma {:induction false} MembersSize<T(!new)>(s: seq<T>, members: set<T>)
    requires forall x :: x in members ==> x in s
    ensures |members| <= |s|
    decreases |s|
  {
    if |s| > 0 {
      MembersSize(s[..|s| - 1], members - {s[|s| - 1]});
    } else {
      assert members == {};
    }
  }

  /** A map that keeps elements apart keeps their number. */
  lemma {:induction false} ImageSize<T(!new), U(!new)>(a: set<T>, f: T -> U, b: set<U>)
    requires forall x, y :: x in a && y in a && f(x) == f(y) ==> x == y
    requires (forall x :: x in a ==> f(x) in b) && forall y :: y in b ==> exists x :: x in a && f(x) == y
    ensures |a| == |b|
  {
    if a == {} {
      assert b == {};
    } else {
      var x :| x in a;
      ImageSize(a - {x}, f, b - {f(x)});
    }
  }
}
