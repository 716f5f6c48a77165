/** itertools.combinations over range(n), in its lexicographic order: every choice once, and the complement
    of each. */
module Combinatorics {
  import opened Sorting

  predicate Increasing(c: seq<nat>, lo: nat, n: nat) {
    && (forall i | 0 <= i < |c| :: lo <= c[i] < n)
    && (forall i, j | 0 <= i < j < |c| :: c[i] < c[j])
  }

  function Prepend(x: nat, cs: seq<seq<nat>>): (r: seq<seq<nat>>)
    ensures |r| == |cs| && forall i | 0 <= i < |cs| :: r[i] == [x] + cs[i]
  {
    seq(|cs|, i requires 0 <= i < |cs| => [x] + cs[i])
  }

  function Combinations(lo: nat, n: nat, k: nat): seq<seq<nat>>
    decreases n - lo
  {
    if k == 0 then [[]]
    else if lo >= n then []
    else Prepend(lo, Combinations(lo + 1, n, k - 1)) + Combinations(lo + 1, n, k)
  }

  /** Every k-element choice appears, and nothing else does. */
  lemma {:induction false} CombinationsAreAllChoices(lo: nat, n: nat, k: nat, c: seq<nat>)
    ensures c in Combinations(lo, n, k) <==> |c| == k && Increasing(c, lo, n)
    decreases n - lo
  {
    if k > 0 && lo < n {
      CombinationsAreAllChoices(lo + 1, n, k, c);
      if c != [] {
        CombinationsAreAllChoices(lo + 1, n, k - 1, c[1..]);
      }
      NextChoices(lo, n, k, c);
    } else {
      ChoicesNeedRoom(c, lo, n);
    }
  }

  /** One level of the enumeration, from its two halves. */
  lemma {:induction false} NextChoices(lo: nat, n: nat, k: nat, c: seq<nat>)
    requires 0 < k && lo < n
    requires c in Combinations(lo + 1, n, k) <==> |c| == k && Increasing(c, lo + 1, n)
    requires c != [] ==>
             (c[1..] in Combinations(lo + 1, n, k - 1) <==> |c[1..]| == k - 1 && Increasing(c[1..], lo + 1, n))
    ensures c in Combinations(lo, n, k) <==> |c| == k && Increasing(c, lo, n)
  {
    InHalves(lo, n, k, c);
    if c != [] {
      FirstChoice(c, lo, n);
    }
  }

  /** A listed choice is lo in front of a shorter one, or one that does without lo. */
  lemma {:induction false} InHalves(lo: nat, n: nat, k: nat, c: seq<nat>)
    requires 0 < k && lo < n
    ensures c in Combinations(lo, n, k) <==>
              (c != [] && c[0] == lo && c[1..] in Combinations(lo + 1, n, k - 1)) || c in Combinations(lo + 1, n, k)
  {
    var with, without := Combinations(lo + 1, n, k - 1), Combinations(lo + 1, n, k);
    assert Combinations(lo, n, k) == Prepend(lo, with) + without;
    if c != [] {
      InPrepend(lo, with, c);
    } else {
      assert forall i | 0 <= i < |Prepend(lo, with)| :: Prepend(lo, with)[i] != [];
    }
  }

  /** A choice from [lo, n) either takes lo first or is a choice from [lo + 1, n). */
  lemma {:induction false} FirstChoice(c: seq<nat>, lo: nat, n: nat)
    requires c != [] && lo < n
    ensures Increasing(c, lo, n) <==> Increasing(c, lo + 1, n) || (c[0] == lo && Increasing(c[1..], lo + 1, n))
  {
    if c[0] == lo && Increasing(c[1..], lo + 1, n) {
      forall i | 0 <= i < |c|
        ensures lo <= c[i] < n && (i > 0 ==> c[i] == c[1..][i - 1])
      {
      }
    }
    if Increasing(c, lo, n) && c[0] == lo {
      forall i | 0 <= i < |c[1..]|
        ensures c[1..][i] == c[i + 1] > c[0]
      {
      }
    }
  }

  lemma {:induction false} ChoicesNeedRoom(c: seq<nat>, lo: nat, n: nat)
    ensures Increasing(c, lo, n) && lo >= n ==> c == []
  {
    if c != [] && Increasing(c, lo, n) {
      assert lo <= c[0] < n;
    }
  }

  lemma {:induction false} InPrepend(x: nat, cs: seq<seq<nat>>, c: seq<nat>)
    requires c != []
    ensures c in Prepend(x, cs) <==> c[0] == x && c[1..] in cs
  {
    if c in Prepend(x, cs) {
      var i :| 0 <= i < |cs| && Prepend(x, cs)[i] == c;
      assert c[1..] == cs[i];
    }
    if c[0] == x && c[1..] in cs {
      var i :| 0 <= i < |cs| && cs[i] == c[1..];
      assert Prepend(x, cs)[i] == [x] + c[1..] == c;
    }
  }

  /** No choice is visited twice. */
  lemma {:induction false} CombinationsDistinct(lo: nat, n: nat, k: nat)
    ensures Distinct(Combinations(lo, n, k))
    decreases n - lo
  {
    if k > 0 && lo < n {
      var with, without := Combinations(lo + 1, n, k - 1), Combinations(lo + 1, n, k);
      CombinationsDistinct(lo + 1, n, k - 1);
      CombinationsDistinct(lo + 1, n, k);
      var all := Combinations(lo, n, k);
      forall i, j | 0 <= i < j < |all|
        ensures all[i] != all[j]
      {
        if j < |with| {
          assert all[i][1..] == with[i] && all[j][1..] == with[j];
        } else {
          assert all[j] == without[j - |with|] && all[j] in without;
          CombinationsAreAllChoices(lo + 1, n, k, all[j]);
          if i < |with| {
            assert all[i][0] == lo;
          }
        }
      }
    }
  }

  lemma {:induction false} CombinationsExist(lo: nat, n: nat, k: nat)
    requires lo + k <= n
    ensures Combinations(lo, n, k) != []
    decreases n - lo
  {
    if k > 0 {
      CombinationsExist(lo + 1, n, k - 1);
    }
  }

  /** The indices in [lo, n) that c leaves out, in increasing order. */
  function Complement(c: seq<nat>, lo: nat, n: nat): seq<nat>
    decreases n - lo
  {
    if lo >= n then [] else (if lo in c then [] else [lo]) + Complement(c, lo + 1, n)
  }

  lemma {:induction false} ComplementIsTheRest(c: seq<nat>, lo: nat, n: nat)
    ensures Increasing(Complement(c, lo, n), lo, n)
    ensures forall x :: x in Complement(c, lo, n) <==> lo <= x < n && x !in c
    decreases n - lo
  {
    if lo < n {
      ComplementIsTheRest(c, lo + 1, n);
    }
  }

  /** Complement halves: k chosen out of n leave n - k. */
  lemma {:induction false} ComplementSize(c: seq<nat>, lo: nat, n: nat)
    requires Increasing(c, lo, n) && lo <= n
    ensures |Complement(c, lo, n)| == n - lo - |c|
    decreases n - lo
  {
    if lo < n {
      if c != [] && c[0] == lo {
        assert Increasing(c[1..], lo + 1, n);
        ComplementSize(c[1..], lo + 1, n);
        ComplementIgnores(c, lo + 1, n);
      } else {
        assert lo !in c;
        ComplementSize(c, lo + 1, n);
      }
    } else {
      ChoicesNeedRoom(c, lo, n);
    }
  }

  lemma {:induction false} ComplementIgnores(c: seq<nat>, lo: nat, n: nat)
    requires c != [] && c[0] < lo
    ensures Complement(c, lo, n) == Complement(c[1..], lo, n)
    decreases n - lo
  {
    if lo < n {
      assert lo in c <==> lo in c[1..];
      ComplementIgnores(c, lo + 1, n);
    }
  }

  lemma {:induction false} IncreasingAbove(c: seq<nat>, lo: nat, n: nat)
    requires Increasing(c, lo, n)
    ensures if c != [] && c[0] == lo then Increasing(c[1..], lo + 1, n) else Increasing(c, lo + 1, n)
  {
  }

  /** Induction over a choice from the end: what holds of no choice is kept by taking and by leaving an index. */
  lemma {:induction false} ChoiceInduction(holds: (seq<nat>, nat) -> bool, c: seq<nat>, lo: nat, n: nat)
    requires lo <= n && Increasing(c, lo, n) && holds([], n)
    requires forall d: seq<nat>, i: nat | i < n && d != [] && d[0] == i && Increasing(d, i, n) ::
               holds(d[1..], i + 1) ==> holds(d, i)
    requires forall d: seq<nat>, i: nat | i < n && Increasing(d, i + 1, n) :: holds(d, i + 1) ==> holds(d, i)
    ensures holds(c, lo)
    decreases n - lo
  {
    if lo == n {
      ChoicesNeedRoom(c, lo, n);
    } else {
      IncreasingAbove(c, lo, n);
      ChoiceInduction(holds, if c != [] && c[0] == lo then c[1..] else c, lo + 1, n);
    }
  }
}
