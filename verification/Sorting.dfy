/** Stable sorting by a total preorder, as Python's `sorted` does it, and the facts about it the models
    use: a permutation, in order, and with the same number of elements of any kind. */
module Sorting {

  ghost predicate TotalPreorder<T(!new)>(le: (T, T) -> bool) {
    && (forall x, y :: le(x, y) || le(y, x))
    && (forall x, y, z :: le(x, y) && le(y, z) ==> le(x, z))
  }

  ghost predicate Antisymmetric<T(!new)>(le: (T, T) -> bool) {
    forall x, y :: le(x, y) && le(y, x) ==> x == y
  }

  ghost predicate Sorted<T(!new)>(xs: seq<T>, le: (T, T) -> bool) {
    forall i, j | 0 <= i < j < |xs| :: le(xs[i], xs[j])
  }

  function Insert<T>(x: T, xs: seq<T>, le: (T, T) -> bool): seq<T> {
    if xs == [] then [x]
    else if le(x, xs[0]) then [x] + xs
    else [xs[0]] + Insert(x, xs[1..], le)
  }

  function Sort<T>(xs: seq<T>, le: (T, T) -> bool): seq<T> {
    if xs == [] then [] else Insert(xs[0], Sort(xs[1..], le), le)
  }

  lemma {:induction false} InsertPermutes<T>(x: T, xs: seq<T>, le: (T, T) -> bool)
    ensures multiset(Insert(x, xs, le)) == multiset(xs) + multiset{x}
    ensures |Insert(x, xs, le)| == |xs| + 1
  {
    if xs != [] {
      assert xs == [xs[0]] + xs[1..];
      if !le(x, xs[0]) {
        InsertPermutes(x, xs[1..], le);
      }
    }
  }

  lemma {:induction false} SortPermutes<T>(xs: seq<T>, le: (T, T) -> bool)
    ensures multiset(Sort(xs, le)) == multiset(xs)
    ensures |Sort(xs, le)| == |xs|
    ensures forall x :: x in Sort(xs, le) <==> x in xs
  {
    if xs != [] {
      assert xs == [xs[0]] + xs[1..];
      SortPermutes(xs[1..], le);
      InsertPermutes(xs[0], Sort(xs[1..], le), le);
    }
    forall x
      ensures x in Sort(xs, le) <==> x in xs
    {
      assert x in Sort(xs, le) <==> x in multiset(Sort(xs, le));
    }
  }

  lemma {:induction false} InsertSorted<T(!new)>(x: T, xs: seq<T>, le: (T, T) -> bool)
    requires TotalPreorder(le) && Sorted(xs, le)
    ensures Sorted(Insert(x, xs, le), le)
  {
    if xs != [] && !le(x, xs[0]) {
      InsertSorted(x, xs[1..], le);
      InsertPermutes(x, xs[1..], le);
      var ys := Insert(x, xs[1..], le);
      forall j | 0 <= j < |ys|
        ensures le(xs[0], ys[j])
      {
        assert ys[j] in multiset(ys);
        assert ys[j] == x || ys[j] in xs[1..];
      }
    }
  }

  lemma {:induction false} SortSorts<T(!new)>(xs: seq<T>, le: (T, T) -> bool)
    requires TotalPreorder(le)
    ensures Sorted(Sort(xs, le), le)
  {
    if xs != [] {
      SortSorts(xs[1..], le);
      InsertSorted(xs[0], Sort(xs[1..], le), le);
    }
  }

  /** A sequence that is in order already is left alone. */
  lemma {:induction false} SortOfSorted<T(!new)>(xs: seq<T>, le: (T, T) -> bool)
    requires Sorted(xs, le)
    ensures Sort(xs, le) == xs
  {
    if xs != [] {
      SortOfSorted(xs[1..], le);
      if |xs| > 1 {
        assert le(xs[0], xs[1]);
      }
    }
  }

  /** Two sorted sequences without repetitions and with the same members are the same sequence. */
  lemma {:induction false} SortedUnique<T(!new)>(xs: seq<T>, ys: seq<T>, le: (T, T) -> bool)
    requires TotalPreorder(le) && Antisymmetric(le)
    requires Sorted(xs, le) && Sorted(ys, le) && Distinct(xs) && Distinct(ys)
    requires forall x :: x in xs <==> x in ys
    ensures xs == ys
  {
    HasMember(ys);
    if xs != [] {
      assert xs[0] in ys;
      assert ys[0] in xs;
      var i :| 0 <= i < |ys| && ys[i] == xs[0];
      var j :| 0 <= j < |xs| && xs[j] == ys[0];
      assert le(ys[0], xs[0]) && le(xs[0], ys[0]);
      forall x
        ensures x in xs[1..] <==> x in ys[1..]
      {
        TailMembers(xs, x);
        TailMembers(ys, x);
      }
      SortedUnique(xs[1..], ys[1..], le);
    }
  }

  lemma {:induction false} HasMember<T>(xs: seq<T>)
    ensures xs == [] || exists x :: x in xs
  {
    if xs != [] {
      assert xs[0] in xs;
    }
  }

  ghost predicate Distinct<T>(xs: seq<T>) {
    forall i, j | 0 <= i < j < |xs| :: xs[i] != xs[j]
  }

  lemma {:induction false} TailMembers<T>(xs: seq<T>, x: T)
    requires xs != [] && Distinct(xs)
    ensures x in xs[1..] <==> x in xs && x != xs[0]
  {
  }

  lemma {:induction false} DistinctByMultiset<T>(xs: seq<T>, ys: seq<T>)
    requires multiset(xs) == multiset(ys) && Distinct(xs)
    ensures Distinct(ys)
  {
    forall i, j | 0 <= i < j < |ys|
      ensures ys[i] != ys[j]
    {
      if ys[i] == ys[j] {
        MultiplicityOfTwo(ys, i, j);
        MultiplicityOfDistinct(xs, ys[i]);
        assert false;
      }
    }
  }

  lemma {:induction false} MultiplicityOfTwo<T>(ys: seq<T>, i: nat, j: nat)
    requires i < j < |ys| && ys[i] == ys[j]
    ensures multiset(ys)[ys[i]] >= 2
  {
    assert ys == ys[..i] + [ys[i]] + ys[i + 1..j] + [ys[j]] + ys[j + 1..];
  }

  lemma {:induction false} MultiplicityOfDistinct<T>(xs: seq<T>, x: T)
    requires Distinct(xs)
    ensures multiset(xs)[x] <= 1
  {
    if xs != [] {
      assert xs == [xs[0]] + xs[1..];
      MultiplicityOfDistinct(xs[1..], x);
      TailMembers(xs, x);
      if x == xs[0] {
        assert x !in multiset(xs[1..]);
      }
    }
  }

  function Count<T>(xs: seq<T>, p: T -> bool): (n: nat)
    ensures n <= |xs|
  {
    if xs == [] then 0 else (if p(xs[0]) then 1 else 0) + Count(xs[1..], p)
  }

  lemma {:induction false} CountAppend<T>(xs: seq<T>, ys: seq<T>, p: T -> bool)
    ensures Count(xs + ys, p) == Count(xs, p) + Count(ys, p)
  {
    if xs == [] {
      assert xs + ys == ys;
    } else {
      assert (xs + ys)[1..] == xs[1..] + ys;
      CountAppend(xs[1..], ys, p);
    }
  }

  lemma {:induction false} CountOne<T>(x: T, ys: seq<T>, p: T -> bool)
    ensures Count([x] + ys, p) == Count(ys, p) + if p(x) then 1 else 0
  {
    assert ([x] + ys)[1..] == ys;
  }

  lemma {:induction false} CountRemove<T>(ys: seq<T>, i: nat, p: T -> bool)
    requires i < |ys|
    ensures Count(ys, p) == Count(ys[..i] + ys[i + 1..], p) + if p(ys[i]) then 1 else 0
  {
    CountAppend(ys[..i], ys[i + 1..], p);
    CountAppend(ys[..i], [ys[i]] + ys[i + 1..], p);
    CountOne(ys[i], ys[i + 1..], p);
    assert ys == ys[..i] + ([ys[i]] + ys[i + 1..]);
  }

  lemma {:induction false} RemoveAt<T>(ys: seq<T>, i: nat)
    requires i < |ys|
    ensures multiset(ys[..i] + ys[i + 1..]) == multiset(ys) - multiset{ys[i]}
    ensures multiset(ys) == multiset(ys[..i] + ys[i + 1..]) + multiset{ys[i]}
  {
    assert ys == ys[..i] + ([ys[i]] + ys[i + 1..]);
  }

  /** Where the first element of xs sits in a permutation of xs. */
  lemma {:induction false} FindFirst<T>(xs: seq<T>, ys: seq<T>) returns (i: nat)
    requires multiset(xs) == multiset(ys) && xs != []
    ensures i < |ys| && ys[i] == xs[0]
    ensures multiset(xs[1..]) == multiset(ys[..i] + ys[i + 1..])
  {
    assert xs == [xs[0]] + xs[1..];
    assert xs[0] in multiset(xs);
    i :| 0 <= i < |ys| && ys[i] == xs[0];
    RemoveAt(ys, i);
  }

  /** Counting does not see the order. */
  lemma {:induction false} CountPermutation<T>(xs: seq<T>, ys: seq<T>, p: T -> bool)
    requires multiset(xs) == multiset(ys)
    ensures Count(xs, p) == Count(ys, p)
    decreases |xs|
  {
    assert |xs| == |multiset(xs)| == |multiset(ys)| == |ys|;
    if xs != [] {
      var i := FindFirst(xs, ys);
      CountRemove(ys, i, p);
      CountPermutation(xs[1..], ys[..i] + ys[i + 1..], p);
    }
  }

  lemma {:induction false} CountMonotone<T(!new)>(xs: seq<T>, p: T -> bool, q: T -> bool)
    requires forall x :: p(x) ==> q(x)
    ensures Count(xs, p) <= Count(xs, q)
  {
    if xs != [] {
      CountMonotone(xs[1..], p, q);
    }
  }

  /** If the elements satisfying p form a prefix, their number says where it ends. */
  lemma {:induction false} CountOfPrefix<T>(xs: seq<T>, p: T -> bool, n: nat)
    requires n <= |xs|
    requires forall i | 0 <= i < n :: p(xs[i])
    requires forall i | n <= i < |xs| :: !p(xs[i])
    ensures Count(xs, p) == n
  {
    if xs != [] {
      CountOfPrefix(xs[1..], p, if n == 0 then 0 else n - 1);
    }
  }

  function Map<T, U>(f: T -> U, xs: seq<T>): (ys: seq<U>)
    ensures |ys| == |xs| && forall i | 0 <= i < |xs| :: ys[i] == f(xs[i])
  {
    seq(|xs|, i requires 0 <= i < |xs| => f(xs[i]))
  }

  lemma {:induction false} MapPermutation<T, U>(xs: seq<T>, ys: seq<T>, f: T -> U)
    requires multiset(xs) == multiset(ys)
    ensures multiset(Map(f, xs)) == multiset(Map(f, ys))
    decreases |xs|
  {
    assert |xs| == |multiset(xs)| == |multiset(ys)| == |ys|;
    if xs != [] {
      var i := FindFirst(xs, ys);
      MapPermutation(xs[1..], ys[..i] + ys[i + 1..], f);
      MapHead(f, xs);
      MapWithout(f, ys, i);
      RemoveAt(Map(f, ys), i);
    }
  }

  lemma {:induction false} MapWithout<T, U>(f: T -> U, ys: seq<T>, i: nat)
    requires i < |ys|
    ensures Map(f, ys[..i] + ys[i + 1..]) == Map(f, ys)[..i] + Map(f, ys)[i + 1..]
  {
  }

  lemma {:induction false} MapHead<T, U>(f: T -> U, xs: seq<T>)
    requires xs != []
    ensures Map(f, xs) == [f(xs[0])] + Map(f, xs[1..])
    ensures multiset(Map(f, xs)) == multiset{f(xs[0])} + multiset(Map(f, xs[1..]))
  {
    assert Map(f, xs) == [f(xs[0])] + Map(f, xs[1..]);
  }
}
