/**
 The stable array sort and the array filter that the services call. `before(x, y)`
 stands for a comparator whose result on (x, y) is negative.
 */
module Sorting {

  function Insert<T>(sorted: seq<T>, x: T, before: (T, T) -> bool): seq<T>
  {
    if |sorted| == 0 || !before(x, sorted[|sorted| - 1]) then sorted + [x]
    else Insert(sorted[..|sorted| - 1], x, before) + [sorted[|sorted| - 1]]
  }

  function Sort<T>(xs: seq<T>, before: (T, T) -> bool): seq<T>
  {
    if |xs| == 0 then [] else Insert(Sort(xs[..|xs| - 1], before), xs[|xs| - 1], before)
  }

  function Filter<T>(xs: seq<T>, keep: T -> bool): seq<T>
  {
    if |xs| == 0 then []
    else Filter(xs[..|xs| - 1], keep) + if keep(xs[|xs| - 1]) then [xs[|xs| - 1]] else []
  }

  /** No element comes before one that stands to its left. */
  ghost predicate Ordered<T(!new)>(xs: seq<T>, before: (T, T) -> bool)
  {
    forall i, j :: 0 <= i < j < |xs| ==> !before(xs[j], xs[i])
  }

  /** Every element comes before all that stand to its right. */
  ghost predicate StrictlyOrdered<T(!new)>(xs: seq<T>, before: (T, T) -> bool)
  {
    forall i, j :: 0 <= i < j < |xs| ==> before(xs[i], xs[j])
  }

  /** `before` is a strict weak order on the elements of `xs`. */
  ghost predicate WeakOrderOn<T(!new)>(xs: seq<T>, before: (T, T) -> bool)
  {
    && (forall a, b :: a in xs && b in xs && before(a, b) ==> !before(b, a))
    && (forall a, b, c :: a in xs && b in xs && c in xs && !before(a, b) && !before(b, c) ==> !before(a, c))
  }

  lemma {:induction false} InsertPermutes<T(!new)>(sorted: seq<T>, x: T, before: (T, T) -> bool)
    ensures multiset(Insert(sorted, x, before)) == multiset(sorted) + multiset{x}
    ensures forall y :: y in Insert(sorted, x, before) <==> y in sorted || y == x
  {
    var n := |sorted|;
    if n == 0 || !before(x, sorted[n - 1]) {
    } else {
      InsertPermutes(sorted[..n - 1], x, before);
      assert sorted == sorted[..n - 1] + [sorted[n - 1]];
    }
  }

  lemma {:induction false} SortPermutes<T(!new)>(xs: seq<T>, before: (T, T) -> bool)
    ensures multiset(Sort(xs, before)) == multiset(xs)
    ensures |Sort(xs, before)| == |xs|
    ensures forall y :: y in Sort(xs, before) <==> y in xs
  {
    if |xs| > 0 {
      var n := |xs| - 1;
      SortPermutes(xs[..n], before);
      InsertPermutes(Sort(xs[..n], before), xs[n], before);
      assert xs == xs[..n] + [xs[n]];
      assert |Sort(xs, before)| == |multiset(Sort(xs, before))| == |multiset(xs)|;
    }
  }

  lemma {:induction false} InsertOrders<T(!new)>(sorted: seq<T>, x: T, before: (T, T) -> bool)
    requires Ordered(sorted, before) && WeakOrderOn(sorted + [x], before)
    ensures Ordered(Insert(sorted, x, before), before)
  {
    var n := |sorted|;
    if n == 0 {
    } else if !before(x, sorted[n - 1]) {
      forall i | 0 <= i < n ensures !before(x, sorted[i]) {
        assert sorted[i] in sorted + [x] && x in sorted + [x] && sorted[n - 1] in sorted + [x];
      }
    } else {
      var front := sorted[..n - 1];
      assert forall y :: y in front + [x] ==> y in sorted + [x];
      InsertOrders(front, x, before);
      InsertPermutes(front, x, before);
      var r := Insert(front, x, before);
      assert x in sorted + [x] && sorted[n - 1] in sorted + [x];
      forall y | y in r ensures !before(sorted[n - 1], y) {
        assert y in front || y == x;
      }
      AppendOrders(r, sorted[n - 1], before);
    }
  }

  lemma AppendOrders<T(!new)>(xs: seq<T>, last: T, before: (T, T) -> bool)
    requires Ordered(xs, before) && forall y :: y in xs ==> !before(last, y)
    ensures Ordered(xs + [last], before)
  {
  }

  lemma {:induction false} SortOrders<T(!new)>(xs: seq<T>, before: (T, T) -> bool)
    requires WeakOrderOn(xs, before)
    ensures Ordered(Sort(xs, before), before)
  {
    if |xs| > 0 {
      var n := |xs| - 1;
      SortOrders(xs[..n], before);
      SortPermutes(xs[..n], before);
      var acc := Sort(xs[..n], before);
      assert forall y :: y in acc + [xs[n]] ==> y in acc || y == xs[n];
      assert forall y :: y in acc ==> y in xs;
      InsertOrders(acc, xs[n], before);
    }
  }

  lemma NonEmptyHas<T(!new)>(xs: seq<T>)
    ensures xs != [] ==> exists x :: x in xs
  {
    if xs != [] { assert xs[0] in xs; }
  }

  /** A strictly ordered sequence is determined by the set of its elements. */
  lemma {:induction false} StrictOrderUnique<T(!new)>(xs: seq<T>, ys: seq<T>, before: (T, T) -> bool)
    requires StrictlyOrdered(xs, before) && StrictlyOrdered(ys, before)
    requires forall a, b :: a in xs && b in xs && before(a, b) ==> !before(b, a)
    requires forall e :: e in xs <==> e in ys
    ensures xs == ys
  {
    NonEmptyHas(xs);
    NonEmptyHas(ys);
    if |xs| > 0 {
      assert xs[0] in xs;
      assert |ys| > 0;
      assert ys[0] in ys;
      FirstsAgree(xs, ys, before);
      forall e ensures e in xs[1..] <==> e in ys[1..] {
        TailMembers(xs, e, before);
        TailMembers(ys, e, before);
      }
      StrictOrderUnique(xs[1..], ys[1..], before);
      assert xs == [xs[0]] + xs[1..] && ys == [ys[0]] + ys[1..];
    }
  }

  lemma FirstsAgree<T(!new)>(xs: seq<T>, ys: seq<T>, before: (T, T) -> bool)
    requires |xs| > 0 && |ys| > 0 && xs[0] in ys && ys[0] in xs
    requires StrictlyOrdered(xs, before) && StrictlyOrdered(ys, before)
    requires forall a, b :: a in xs && b in xs && before(a, b) ==> !before(b, a)
    ensures xs[0] == ys[0]
  {
    var i :| 0 <= i < |ys| && ys[i] == xs[0];
    var j :| 0 <= j < |xs| && xs[j] == ys[0];
  }

  lemma TailMembers<T(!new)>(xs: seq<T>, e: T, before: (T, T) -> bool)
    requires |xs| > 0 && StrictlyOrdered(xs, before)
    requires forall a, b :: a in xs && b in xs && before(a, b) ==> !before(b, a)
    ensures e in xs[1..] <==> e in xs && e != xs[0]
  {
    assert forall k :: 0 <= k < |xs| - 1 ==> xs[1..][k] == xs[k + 1];
    if e in xs[1..] {
      var k :| 0 <= k < |xs| - 1 && xs[1..][k] == e;
      assert before(xs[0], xs[k + 1]) && xs[0] in xs && xs[k + 1] in xs;
    }
    if e in xs && e != xs[0] {
      var k :| 0 <= k < |xs| && xs[k] == e;
      assert xs[1..][k - 1] == e;
    }
  }

  lemma {:induction false} FilterMembers<T(!new)>(xs: seq<T>, keep: T -> bool)
    ensures forall y :: y in Filter(xs, keep) <==> y in xs && keep(y)
    ensures |Filter(xs, keep)| <= |xs|
  {
    if |xs| > 0 {
      var n := |xs| - 1;
      FilterMembers(xs[..n], keep);
      assert xs == xs[..n] + [xs[n]];
    }
  }

  lemma FilterAppend<T>(xs: seq<T>, x: T, keep: T -> bool)
    ensures Filter(xs + [x], keep) == Filter(xs, keep) + if keep(x) then [x] else []
  {
    assert (xs + [x])[..|xs|] == xs;
  }

  lemma {:induction false} FilterAll<T(!new)>(xs: seq<T>, keep: T -> bool)
    requires forall x :: x in xs ==> keep(x)
    ensures Filter(xs, keep) == xs
  {
    if |xs| > 0 {
      FilterAll(xs[..|xs| - 1], keep);
      assert xs == xs[..|xs| - 1] + [xs[|xs| - 1]];
    }
  }

  /** Filtering keeps a strict order. */
  lemma {:induction false} FilterStrict<T(!new)>(xs: seq<T>, before: (T, T) -> bool, keep: T -> bool)
    requires StrictlyOrdered(xs, before)
    ensures StrictlyOrdered(Filter(xs, keep), before)
  {
    if |xs| > 0 {
      var front, last := xs[..|xs| - 1], xs[|xs| - 1];
      FilterStrict(front, before, keep);
      FilterMembers(front, keep);
      var f := Filter(front, keep);
      forall i | 0 <= i < |f| ensures before(f[i], last) {
        assert f[i] in f;
      }
    }
  }

  /** Sorting elements that are pairwise ordered one way or the other gives a strict order. */
  lemma SortStrict<T(!new)>(xs: seq<T>, before: (T, T) -> bool)
    requires WeakOrderOn(xs, before)
    requires forall i, j :: 0 <= i < j < |xs| ==> xs[i] != xs[j]
    requires forall a, b :: a in xs && b in xs && a != b ==> before(a, b) || before(b, a)
    ensures StrictlyOrdered(Sort(xs, before), before)
  {
    SortOrders(xs, before);
    SortPermutes(xs, before);
    var s := Sort(xs, before);
    forall i, j | 0 <= i < j < |s| ensures before(s[i], s[j]) {
      assert s[i] in s && s[j] in s;
      NoRepeats(xs, s, i, j);
    }
  }

  lemma Once<T(!new)>(xs: seq<T>, e: T)
    requires e in xs
    requires forall i, j :: 0 <= i < j < |xs| ==> xs[i] != xs[j]
    ensures multiset(xs)[e] == 1
  {
    var k :| 0 <= k < |xs| && xs[k] == e;
    assert xs == xs[..k] + [e] + xs[k + 1..];
    assert e !in xs[..k] && e !in xs[k + 1..];
  }

  lemma Twice<T(!new)>(s: seq<T>, i: nat, j: nat)
    requires i < j < |s| && s[i] == s[j]
    ensures multiset(s)[s[i]] >= 2
  {
    assert s == s[..i] + [s[i]] + s[i + 1..j] + [s[j]] + s[j + 1..];
  }

  lemma NoRepeats<T(!new)>(xs: seq<T>, s: seq<T>, i: nat, j: nat)
    requires multiset(s) == multiset(xs) && i < j < |s|
    requires forall i, j :: 0 <= i < j < |xs| ==> xs[i] != xs[j]
    ensures s[i] != s[j]
  {
    assert s[i] in multiset(s) && s[i] in xs;
    Once(xs, s[i]);
    if s[i] == s[j] {
      Twice(s, i, j);
    }
  }
}
