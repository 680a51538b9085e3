/** Python's stable `sorted`, as insertion sort over a total preorder, with the
    facts the other modules need: it sorts, it permutes, it leaves sorted input
    alone, and on two sorted inputs it is a stable merge. */
module Sorting {

  ghost predicate TotalPreorder<T(!new)>(leq: (T, T) -> bool) {
    && (forall a, b :: leq(a, b) || leq(b, a))
    && (forall a, b, c :: leq(a, b) && leq(b, c) ==> leq(a, c))
  }

  ghost predicate TotalOrder<T(!new)>(leq: (T, T) -> bool) {
    && TotalPreorder(leq)
    && (forall a, b :: leq(a, b) && leq(b, a) ==> a == b)
  }

  ghost predicate SortedBy<T(!new)>(leq: (T, T) -> bool, xs: seq<T>) {
    forall i, j :: 0 <= i < j < |xs| ==> leq(xs[i], xs[j])
  }

  function Insert<T>(leq: (T, T) -> bool, x: T, ys: seq<T>): (r: seq<T>)
    ensures |r| == |ys| + 1
  {
    if ys == [] || leq(x, ys[0]) then [x] + ys else [ys[0]] + Insert(leq, x, ys[1..])
  }

  /** Elements that compare equal keep the order they came in. */
  function Sort<T>(leq: (T, T) -> bool, xs: seq<T>): (r: seq<T>)
    ensures |r| == |xs|
  {
    if xs == [] then [] else Insert(leq, xs[0], Sort(leq, xs[1..]))
  }

  lemma Preorder<T(!new)>(leq: (T, T) -> bool, a: T, b: T, c: T)
    requires TotalPreorder(leq)
    ensures leq(a, b) || leq(b, a)
    ensures leq(a, b) && leq(b, c) ==> leq(a, c)
  {
  }

  lemma {:induction false} InsertKeeps<T(!new)>(leq: (T, T) -> bool, x: T, ys: seq<T>)
    requires TotalPreorder(leq) && SortedBy(leq, ys)
    ensures SortedBy(leq, Insert(leq, x, ys))
    ensures multiset(Insert(leq, x, ys)) == multiset{x} + multiset(ys)
  {
    hide TotalPreorder;
    if ys == [] {
    } else if leq(x, ys[0]) {
      forall k | 0 <= k < |ys| ensures leq(x, ys[k]) {
        Preorder(leq, x, ys[0], ys[k]);
      }
    } else {
      InsertKeeps(leq, x, ys[1..]);
      var r := Insert(leq, x, ys[1..]);
      assert ys == [ys[0]] + ys[1..];
      forall k | 0 <= k < |r| ensures leq(ys[0], r[k]) {
        assert r[k] in multiset(r);
        Preorder(leq, x, ys[0], ys[0]);
        assert r[k] == x || r[k] in ys[1..];
      }
    }
  }

  lemma {:induction false} SortSorts<T(!new)>(leq: (T, T) -> bool, xs: seq<T>)
    requires TotalPreorder(leq)
    ensures SortedBy(leq, Sort(leq, xs))
    ensures multiset(Sort(leq, xs)) == multiset(xs)
  {
    if xs != [] {
      SortSorts(leq, xs[1..]);
      InsertKeeps(leq, xs[0], Sort(leq, xs[1..]));
      assert xs == [xs[0]] + xs[1..];
    }
  }

  lemma {:induction false} SortOfSorted<T(!new)>(leq: (T, T) -> bool, xs: seq<T>)
    requires SortedBy(leq, xs)
    ensures Sort(leq, xs) == xs
  {
    if xs != [] {
      SortOfSorted(leq, xs[1..]);
    }
  }

  lemma FirstsAgree<T(!new)>(leq: (T, T) -> bool, xs: seq<T>, ys: seq<T>)
    requires TotalOrder(leq) && SortedBy(leq, xs) && SortedBy(leq, ys)
    requires xs != [] && ys != [] && xs[0] in ys && ys[0] in xs
    ensures xs[0] == ys[0]
  {
    Preorder(leq, xs[0], xs[0], xs[0]);
    Preorder(leq, ys[0], ys[0], ys[0]);
    assert leq(xs[0], ys[0]) && leq(ys[0], xs[0]);
  }

  function Except<T>(xs: seq<T>, j: nat): (r: seq<T>)
    requires j < |xs|
    ensures |r| == |xs| - 1
  {
    xs[..j] + xs[j + 1..]
  }

  lemma Without<T>(xs: seq<T>, j: nat)
    requires j < |xs|
    ensures multiset(xs) == multiset{xs[j]} + multiset(Except(xs, j))
  {
    assert xs == xs[..j] + [xs[j]] + xs[j + 1..];
  }

  /** Under a total order a sorted arrangement is unique. */
  lemma {:induction false} SortedUnique<T(!new)>(leq: (T, T) -> bool, xs: seq<T>, ys: seq<T>)
    requires TotalOrder(leq) && SortedBy(leq, xs) && SortedBy(leq, ys)
    requires multiset(xs) == multiset(ys)
    ensures xs == ys
    decreases |xs|
  {
    hide TotalOrder, Except, SortedBy;
    assert |xs| == |multiset(xs)| == |multiset(ys)| == |ys|;
    if xs != [] {
      assert xs[0] in multiset(ys) && ys[0] in multiset(xs);
      FirstsAgree(leq, xs, ys);
      Without(xs, 0);
      Without(ys, 0);
      assert multiset(Except(xs, 0)) == multiset(xs) - multiset{xs[0]} == multiset(Except(ys, 0));
      TailSorted(leq, xs);
      TailSorted(leq, ys);
      SortedUnique(leq, Except(xs, 0), Except(ys, 0));
    }
  }

  lemma TailSorted<T(!new)>(leq: (T, T) -> bool, xs: seq<T>)
    requires xs != [] && SortedBy(leq, xs)
    ensures SortedBy(leq, Except(xs, 0))
    ensures xs == [xs[0]] + Except(xs, 0)
  {
  }

  /** Sorting a strictly misordered list reverses it. */
  lemma {:induction false} SortReverses<T(!new)>(leq: (T, T) -> bool, xs: seq<T>)
    requires forall i, j :: 0 <= i < j < |xs| ==> !leq(xs[i], xs[j])
    ensures Sort(leq, xs) == seq(|xs|, k requires 0 <= k < |xs| => xs[|xs| - 1 - k])
  {
    if xs != [] {
      SortReverses(leq, xs[1..]);
      InsertLast(leq, xs[0], Sort(leq, xs[1..]));
    }
  }

  lemma {:induction false} InsertLast<T(!new)>(leq: (T, T) -> bool, x: T, ys: seq<T>)
    requires forall i :: 0 <= i < |ys| ==> !leq(x, ys[i])
    ensures Insert(leq, x, ys) == ys + [x]
  {
    if ys != [] {
      InsertLast(leq, x, ys[1..]);
      assert ys == [ys[0]] + ys[1..];
    }
  }

  /** An element counted twice sits at two positions, and conversely. */
  lemma {:induction false} CountedTwice<T>(xs: seq<T>, x: T)
    ensures multiset(xs)[x] >= 2 <==> exists i, j :: 0 <= i < j < |xs| && xs[i] == x && xs[j] == x
  {
    if xs != [] {
      var rest := xs[1..];
      assert xs == [xs[0]] + rest;
      CountedTwice(rest, x);
      if multiset(xs)[x] >= 2 {
        if xs[0] == x {
          assert x in rest;
          var j :| 0 <= j < |rest| && rest[j] == x;
          assert xs[0] == x && xs[j + 1] == x;
        } else {
          var i, j :| 0 <= i < j < |rest| && rest[i] == x && rest[j] == x;
          assert xs[i + 1] == x && xs[j + 1] == x;
        }
      }
      if i, j :| 0 <= i < j < |xs| && xs[i] == x && xs[j] == x {
        assert rest[j - 1] == x;
        if i > 0 {
          assert rest[i - 1] == x;
        }
      }
    }
  }

  function Map<T, U>(f: T -> U, xs: seq<T>): (ys: seq<U>)
    ensures |ys| == |xs| && forall i | 0 <= i < |xs| :: ys[i] == f(xs[i])
  {
    seq(|xs|, i requires 0 <= i < |xs| => f(xs[i]))
  }

  lemma MapExcept<T, U>(f: T -> U, xs: seq<T>, j: nat)
    requires j < |xs|
    ensures Map(f, Except(xs, j)) == Except(Map(f, xs), j)
  {
  }

  /** Mapping a permutation permutes the images. */
  lemma {:induction false} MapPermutes<T(!new), U(!new)>(f: T -> U, a: seq<T>, b: seq<T>)
    requires multiset(a) == multiset(b)
    ensures multiset(Map(f, a)) == multiset(Map(f, b))
    decreases |a|
  {
    hide Map, Except;
    assert |a| == |multiset(a)| == |multiset(b)| == |b|;
    if a != [] {
      assert a[0] in multiset(b);
      var j :| 0 <= j < |b| && b[j] == a[0];
      Without(a, 0);
      Without(b, j);
      assert multiset(Except(a, 0)) == multiset(a) - multiset{a[0]};
      assert multiset(Except(b, j)) == multiset(b) - multiset{a[0]};
      MapPermutes(f, Except(a, 0), Except(b, j));
      Without(Map(f, a), 0);
      Without(Map(f, b), j);
      MapExcept(f, a, 0);
      MapExcept(f, b, j);
    }
  }

  /** Stable merge: on ties the left list goes first. */
  function Merge<T>(leq: (T, T) -> bool, a: seq<T>, b: seq<T>): (r: seq<T>)
    ensures |r| == |a| + |b|
    decreases |a| + |b|
  {
    if a == [] then b
    else if b == [] then a
    else if leq(a[0], b[0]) then [a[0]] + Merge(leq, a[1..], b)
    else [b[0]] + Merge(leq, a, b[1..])
  }

  /** Sorting one sorted list appended to another is the stable merge of the two. */
  lemma {:induction false} SortIsMerge<T(!new)>(leq: (T, T) -> bool, a: seq<T>, b: seq<T>)
    requires TotalPreorder(leq) && SortedBy(leq, a) && SortedBy(leq, b)
    ensures Sort(leq, a + b) == Merge(leq, a, b)
  {
    if a == [] {
      assert a + b == b;
      SortOfSorted(leq, b);
    } else {
      assert (a + b)[0] == a[0] && (a + b)[1..] == a[1..] + b;
      SortIsMerge(leq, a[1..], b);
      InsertIntoMerge(leq, a, b);
    }
  }

  lemma {:induction false} InsertIntoMerge<T(!new)>(leq: (T, T) -> bool, a: seq<T>, b: seq<T>)
    requires TotalPreorder(leq) && SortedBy(leq, a) && SortedBy(leq, b) && a != []
    ensures Insert(leq, a[0], Merge(leq, a[1..], b)) == Merge(leq, a, b)
    decreases |b|
  {
    if b == [] {
      if |a| > 1 {
        assert leq(a[0], a[1]);
      }
    } else if !leq(a[0], b[0]) {
      if |a| > 1 {
        assert leq(a[0], a[1]);
      }
      var m := Merge(leq, a[1..], b);
      assert m == [b[0]] + Merge(leq, a[1..], b[1..]);
      assert m[1..] == Merge(leq, a[1..], b[1..]);
      InsertIntoMerge(leq, a, b[1..]);
    }
  }

  /** The first d elements of a merge need only the first d of each side. */
  lemma {:induction false} MergePrefix<T(!new)>(leq: (T, T) -> bool, a: seq<T>, b: seq<T>, p: nat, q: nat, d: nat)
    requires d <= p && d <= q
    ensures Take(Merge(leq, Take(a, p), Take(b, q)), d) == Take(Merge(leq, a, b), d)
    decreases d
  {
    hide Merge, Take;
    if d == 0 || a == [] || b == [] {
      MergePrefixTrivial(leq, a, b, p, q, d);
    } else {
      TakeTail(a, p);
      TakeTail(b, q);
      var left, right := Take(a, p), Take(b, q);
      MergeHead(leq, a, b);
      MergeHead(leq, left, right);
      if leq(a[0], b[0]) {
        MergePrefix(leq, a[1..], b, p - 1, q, d - 1);
        TakeCons(a[0], Merge(leq, left[1..], right), d);
        TakeCons(a[0], Merge(leq, a[1..], b), d);
      } else {
        MergePrefix(leq, a, b[1..], p, q - 1, d - 1);
        TakeCons(b[0], Merge(leq, left, right[1..]), d);
        TakeCons(b[0], Merge(leq, a, b[1..]), d);
      }
    }
  }

  lemma MergePrefixTrivial<T(!new)>(leq: (T, T) -> bool, a: seq<T>, b: seq<T>, p: nat, q: nat, d: nat)
    requires d <= p && d <= q && (d == 0 || a == [] || b == [])
    ensures Take(Merge(leq, Take(a, p), Take(b, q)), d) == Take(Merge(leq, a, b), d)
  {
  }

  lemma MergeHead<T>(leq: (T, T) -> bool, a: seq<T>, b: seq<T>)
    requires a != [] && b != []
    ensures Merge(leq, a, b) ==
      if leq(a[0], b[0]) then [a[0]] + Merge(leq, a[1..], b) else [b[0]] + Merge(leq, a, b[1..])
  {
  }

  lemma TakeTail<T>(xs: seq<T>, p: nat)
    requires xs != [] && p > 0
    ensures Take(xs, p) != [] && Take(xs, p)[0] == xs[0] && Take(xs, p)[1..] == Take(xs[1..], p - 1)
  {
  }

  lemma TakeCons<T>(x: T, xs: seq<T>, d: nat)
    requires d > 0
    ensures Take([x] + xs, d) == [x] + Take(xs, d - 1)
  {
  }

  /** Python's xs[:d], which stops at the end of the list. */
  function Take<T>(xs: seq<T>, d: nat): (r: seq<T>)
    ensures |r| == if d <= |xs| then d else |xs|
    ensures r <= xs
  {
    if d <= |xs| then xs[..d] else xs
  }
}
