/** A stable sort by a comparison, and when its result is the only ordered arrangement. */
module Sorting {
  import opened Collections

  /** x before the first element that is not smaller. */
  function Insert<T>(x: T, s: seq<T>, less: (T, T) -> bool): seq<T> {
    if |s| == 0 || !less(s[0], x) then [x] + s else [s[0]] + Insert(x, s[1..], less)
  }

  /** Equal elements keep their order. */
  function StableSort<T>(s: seq<T>, less: (T, T) -> bool): seq<T> {
    if |s| == 0 then [] else Insert(s[0], StableSort(s[1..], less), less)
  }

  ghost predicate Members<T(!new)>(a: seq<T>, b: seq<T>) { forall x :: x in a <==> x in b }

  ghost predicate Ordered<T>(s: seq<T>, less: (T, T) -> bool) { forall i, j :: 0 <= i < j < |s| ==> less(s[i], s[j]) }

  /** `less` strictly orders the elements of s. */
  ghost predicate Orders<T(!new)>(less: (T, T) -> bool, s: seq<T>) {
    && (forall a, b :: a in s && b in s && a != b ==> less(a, b) || less(b, a))
    && (forall a, b :: a in s && b in s && less(a, b) ==> !less(b, a))
    && (forall a, b, c :: a in s && b in s && c in s && less(a, b) && less(b, c) ==> less(a, c))
  }

  lemma {:induction false} InsertMembers<T(!new)>(x: T, s: seq<T>, less: (T, T) -> bool)
    ensures forall y :: y in Insert(x, s, less) <==> y == x || y in s
    ensures |Insert(x, s, less)| == |s| + 1
  {
    if |s| > 0 && less(s[0], x) {
      InsertMembers(x, s[1..], less);
      assert s == [s[0]] + s[1..];
    }
  }

  lemma {:induction false} SortMembers<T(!new)>(s: seq<T>, less: (T, T) -> bool)
    ensures Members(StableSort(s, less), s) && |StableSort(s, less)| == |s|
  {
    if |s| > 0 {
      SortMembers(s[1..], less);
      InsertMembers(s[0], StableSort(s[1..], less), less);
      assert s == [s[0]] + s[1..];
    }
  }

  lemma {:induction false} InsertOrdered<T(!new)>(x: T, s: seq<T>, less: (T, T) -> bool, all: seq<T>)
    requires Orders(less, all) && x in all && x !in s && Ordered(s, less) && forall y :: y in s ==> y in all
    ensures Ordered(Insert(x, s, less), less)
  {
    if |s| > 0 {
      if less(s[0], x) {
        InsertOrdered(x, s[1..], less, all);
        InsertMembers(x, s[1..], less);
        var rest := Insert(x, s[1..], less);
        forall k | 0 <= k < |rest| ensures less(s[0], rest[k]) {
          assert rest[k] in rest;
          if rest[k] != x {
            var j :| 0 <= j < |s[1..]| && s[1..][j] == rest[k];
            assert s[1..][j] == s[j + 1];
          }
        }
      } else {
        forall k | 0 <= k < |s| ensures less(x, s[k]) {
          assert s[k] in s && s[0] in s;
        }
      }
    }
  }

  lemma {:induction false} SortOrdered<T(!new)>(s: seq<T>, less: (T, T) -> bool, all: seq<T>)
    requires Orders(less, all) && Distinct(s) && forall y :: y in s ==> y in all
    ensures Ordered(StableSort(s, less), less)
  {
    if |s| > 0 {
      var rest := s[1..];
      assert s == [s[0]] + rest;
      SortOrdered(rest, less, all);
      SortMembers(rest, less);
      assert s[0] !in rest;
      InsertOrdered(s[0], StableSort(rest, less), less, all);
    }
  }

  /** Two ordered arrangements of the same elements are equal. */
  lemma {:induction false} OrderedIsUnique<T(!new)>(a: seq<T>, b: seq<T>, less: (T, T) -> bool, all: seq<T>)
    requires Orders(less, all) && Ordered(a, less) && Ordered(b, less) && Members(a, b)
    requires forall y :: y in a ==> y in all
    ensures a == b
  {
    if |b| > 0 {
      assert b[0] in b;
    }
    if |a| > 0 {
      assert a[0] in a;
      SameFirst(a, b, less, all);
      TailMembers(a, b, less, all);
      OrderedIsUnique(a[1..], b[1..], less, all);
      assert a == [a[0]] + a[1..] && b == [b[0]] + b[1..];
    }
  }

  lemma SameFirst<T(!new)>(a: seq<T>, b: seq<T>, less: (T, T) -> bool, all: seq<T>)
    requires Orders(less, all) && Ordered(a, less) && Ordered(b, less) && |a| > 0 && |b| > 0 && a[0] in b && b[0] in a
    requires forall y :: y in a ==> y in all
    ensures a[0] == b[0]
  {
  }

  lemma TailMembers<T(!new)>(a: seq<T>, b: seq<T>, less: (T, T) -> bool, all: seq<T>)
    requires Orders(less, all) && Ordered(a, less) && Ordered(b, less) && Members(a, b) && |a| > 0 && |b| > 0 && a[0] == b[0]
    requires forall y :: y in a ==> y in all
    ensures Members(a[1..], b[1..]) && Ordered(a[1..], less) && Ordered(b[1..], less)
  {
    forall x ensures x in a[1..] <==> x in a && x != a[0] {
      TailMember(a, less, all, x);
    }
    forall x ensures x in b[1..] <==> x in b && x != b[0] {
      TailMember(b, less, all, x);
    }
  }

  lemma TailMember<T(!new)>(a: seq<T>, less: (T, T) -> bool, all: seq<T>, x: T)
    requires Orders(less, all) && Ordered(a, less) && |a| > 0 && forall y :: y in a ==> y in all
    ensures x in a[1..] <==> x in a && x != a[0]
  {
  }

  // ---- What a stable sort does with ties ---------------------------------------------

  /** `less` compares the elements of s by some key: a strict order in which being neither
      smaller nor larger is transitive. */
  ghost predicate WeaklyOrders<T(!new)>(less: (T, T) -> bool, s: seq<T>) {
    && (forall a, b :: a in s && b in s && less(a, b) ==> !less(b, a))
    && (forall a, b, c :: a in s && b in s && c in s && !less(a, b) && !less(b, c) ==> !less(a, c))
  }

  ghost predicate Before<T(!new)>(s: seq<T>, x: T, y: T) { exists i, j :: 0 <= i < j < |s| && s[i] == x && s[j] == y }

  lemma BeforeMembers<T(!new)>(s: seq<T>, x: T, y: T)
    ensures Before(s, x, y) ==> x in s && y in s
  {
  }

  /** Appending an element puts it behind all others. */
  lemma SnocBefore<T(!new)>(s: seq<T>, last: T, x: T, y: T)
    requires last !in s
    ensures Before(s + [last], x, y) <==> Before(s, x, y) || (y == last && x in s)
  {
    var t := s + [last];
    if Before(s, x, y) {
      var i, j :| 0 <= i < j < |s| && s[i] == x && s[j] == y;
      assert t[i] == x && t[j] == y;
    } else if y == last && x in s {
      var i :| 0 <= i < |s| && s[i] == x;
      assert t[i] == x && t[|s|] == y;
    }
  }

  /** The order a stable sort of s produces: by the comparison, ties by their place in s. */
  ghost predicate Precedes<T(!new)>(s: seq<T>, less: (T, T) -> bool, x: T, y: T) {
    less(x, y) || (!less(y, x) && Before(s, x, y))
  }

  ghost predicate InPlace<T(!new)>(r: seq<T>, s: seq<T>, less: (T, T) -> bool) {
    forall i, j :: 0 <= i < j < |r| ==> Precedes(s, less, r[i], r[j])
  }

  /** Before the insertion point everything is smaller, behind it nothing is. */
  lemma {:induction false} InsertInPlace<T(!new)>(x: T, r: seq<T>, less: (T, T) -> bool, s: seq<T>)
    requires WeaklyOrders(less, s) && x in s && InPlace(r, s, less)
    requires forall y :: y in r ==> y in s && Before(s, x, y)
    ensures InPlace(Insert(x, r, less), s, less)
  {
    if |r| == 0 {
    } else if less(r[0], x) {
      InsertInPlace(x, r[1..], less, s);
      InsertMembers(x, r[1..], less);
      var rest := Insert(x, r[1..], less);
      forall k | 0 <= k < |rest| ensures Precedes(s, less, r[0], rest[k]) {
        assert rest[k] in rest;
        if rest[k] != x {
          var j :| 0 <= j < |r[1..]| && r[1..][j] == rest[k];
          assert r[1..][j] == r[j + 1];
        }
      }
    } else {
      forall k | 0 <= k < |r| ensures Precedes(s, less, x, r[k]) {
        assert r[k] in r && r[0] in r;
        assert k > 0 ==> Precedes(s, less, r[0], r[k]);
      }
    }
  }

  lemma {:induction false} SortInPlace<T(!new)>(t: seq<T>, s: seq<T>, n: nat, less: (T, T) -> bool)
    requires WeaklyOrders(less, s) && n <= |s| && t == s[n..]
    ensures InPlace(StableSort(t, less), s, less)
    decreases |t|
  {
    if |t| > 0 {
      var rest := t[1..];
      SortInPlace(rest, s, n + 1, less);
      SortMembers(rest, less);
      forall y | y in StableSort(rest, less) ensures y in s && Before(s, t[0], y) {
        assert y in rest;
        var j :| 0 <= j < |rest| && rest[j] == y;
        assert s[n] == t[0] && s[n + 1 + j] == y;
      }
      InsertInPlace(t[0], StableSort(rest, less), less, s);
    }
  }

  lemma BeforeOnce<T(!new)>(s: seq<T>, x: T, y: T)
    requires Distinct(s)
    ensures !(Before(s, x, y) && Before(s, y, x)) && !Before(s, x, x)
    ensures x in s && y in s && x != y ==> Before(s, x, y) || Before(s, y, x)
  {
  }

  /** It is a strict order. */
  lemma PrecedesOrders<T(!new)>(s: seq<T>, less: (T, T) -> bool)
    requires WeaklyOrders(less, s) && Distinct(s)
    ensures Orders((x, y) => Precedes(s, less, x, y), s)
  {
  }

  lemma SomeOrder<T(!new)>(r: seq<T>, x: T, y: T)
    requires x in r && y in r
    ensures x == y || Before(r, x, y) || Before(r, y, x)
  {
  }

  lemma BeforePrecedes<T(!new)>(r: seq<T>, s: seq<T>, less: (T, T) -> bool, x: T, y: T)
    requires InPlace(r, s, less)
    ensures Before(r, x, y) ==> Precedes(s, less, x, y)
  {
  }

  /** Where the sorted elements stand is exactly that order. */
  lemma SortedByPrecedes<T(!new)>(s: seq<T>, less: (T, T) -> bool, x: T, y: T)
    requires WeaklyOrders(less, s) && Distinct(s) && x in s && y in s
    ensures Before(StableSort(s, less), x, y) <==> Precedes(s, less, x, y)
  {
    var r := StableSort(s, less);
    SortMembers(s, less);
    SortInPlace(s, s, 0, less);
    BeforeOnce(s, x, y);
    SomeOrder(r, x, y);
    BeforePrecedes(r, s, less, x, y);
    BeforePrecedes(r, s, less, y, x);
  }

  /** The place of an element is the number of those that precede it. */
  lemma PlaceIsCount<T(!new)>(s: seq<T>, less: (T, T) -> bool, i: nat)
    requires WeaklyOrders(less, s) && Distinct(s) && i < |s| && |StableSort(s, less)| == |s|
    ensures |set x | x in s && Precedes(s, less, x, StableSort(s, less)[i])| == i
  {
    var r := StableSort(s, less);
    var ahead := set x | x in s && Precedes(s, less, x, r[i]);
    SortMembers(s, less);
    SortDistinct(s, less);
    forall x ensures x in ahead <==> x in r[..i] {
      if x in s {
        SortedByPrecedes(s, less, x, r[i]);
        BeforeIndex(r, x, i);
      }
    }
    DistinctSize(r[..i], ahead);
    MembersSize(r[..i], ahead);
  }

  lemma BeforeIndex<T(!new)>(r: seq<T>, x: T, i: nat)
    requires Distinct(r) && i < |r|
    ensures Before(r, x, r[i]) <==> x in r[..i]
  {
  }

  lemma {:induction false} SortDistinct<T(!new)>(s: seq<T>, less: (T, T) -> bool)
    requires Distinct(s)
    ensures Distinct(StableSort(s, less))
  {
    if |s| > 0 {
      var rest := StableSort(s[1..], less);
      SortDistinct(s[1..], less);
      SortMembers(s[1..], less);
      assert s[0] !in s[1..];
      InsertDistinct(s[0], rest, less);
    }
  }

  lemma {:induction false} InsertDistinct<T(!new)>(x: T, s: seq<T>, less: (T, T) -> bool)
    requires Distinct(s) && x !in s
    ensures Distinct(Insert(x, s, less))
  {
    if |s| > 0 && less(s[0], x) {
      InsertDistinct(x, s[1..], less);
      InsertMembers(x, s[1..], less);
      assert s[0] !in s[1..];
    }
  }

  /** Two stable sorts of the same elements agree exactly when they order every pair alike. */
  lemma SortsAgree<T(!new)>(a: seq<T>, lessA: (T, T) -> bool, b: seq<T>, lessB: (T, T) -> bool)
    requires Distinct(a) && Distinct(b) && Members(a, b) && WeaklyOrders(lessA, a) && WeaklyOrders(lessB, b)
    ensures StableSort(a, lessA) == StableSort(b, lessB) <==>
            forall x, y :: x in a && y in a ==> (Precedes(a, lessA, x, y) <==> Precedes(b, lessB, x, y))
  {
    var r, t := StableSort(a, lessA), StableSort(b, lessB);
    if r == t {
      forall x, y | x in a && y in a ensures Precedes(a, lessA, x, y) <==> Precedes(b, lessB, x, y) {
        SortedByPrecedes(a, lessA, x, y);
        SortedByPrecedes(b, lessB, x, y);
      }
    } else if forall x, y :: x in a && y in a ==> (Precedes(a, lessA, x, y) <==> Precedes(b, lessB, x, y)) {
      AgreeingSorts(a, lessA, b, lessB);
    }
  }

  lemma AgreeingSorts<T(!new)>(a: seq<T>, lessA: (T, T) -> bool, b: seq<T>, lessB: (T, T) -> bool)
    requires Distinct(a) && Distinct(b) && Members(a, b) && WeaklyOrders(lessA, a) && WeaklyOrders(lessB, b)
    requires forall x, y :: x in a && y in a ==> (Precedes(a, lessA, x, y) <==> Precedes(b, lessB, x, y))
    ensures StableSort(a, lessA) == StableSort(b, lessB)
  {
    var r, t := StableSort(a, lessA), StableSort(b, lessB);
    SortMembers(a, lessA);
    SortMembers(b, lessB);
    SortInPlace(a, a, 0, lessA);
    SortInPlace(b, b, 0, lessB);
    PrecedesOrders(a, lessA);
    forall i, j | 0 <= i < j < |t| ensures Precedes(a, lessA, t[i], t[j]) {
      assert t[i] in t && t[j] in t;
      assert Precedes(b, lessB, t[i], t[j]);
    }
    OrderedIsUnique(r, t, (x, y) => Precedes(a, lessA, x, y), a);
  }
}
