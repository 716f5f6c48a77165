/** Python's string order: by code point, prefixes first. It is total and antisymmetric, so sorting distinct
    strings by it has one result. */
module Strings {
  import opened Sorting

  predicate StringLe(a: string, b: string) {
    a == "" || (b != "" && (a[0] < b[0] || (a[0] == b[0] && StringLe(a[1..], b[1..]))))
  }

  /** Where the strings first differ, a has ended or has the smaller code point. */
  ghost predicate Before(a: string, b: string) {
    exists i: nat :: DiffersAt(a, b, i) && i < |b| && (i < |a| ==> (a[i] as int) < b[i] as int)
  }

  predicate DiffersAt(a: string, b: string, i: nat) {
    i <= |a| && i <= |b| && a[..i] == b[..i] && (i < |a| && i < |b| ==> a[i] != b[i])
  }

  lemma {:induction false} StringLeExactly(a: string, b: string)
    ensures StringLe(a, b) <==> a == b || Before(a, b)
  {
    if a == "" || b == "" || a[0] != b[0] {
      FirstDiffers(a, b);
    } else {
      StringLeExactly(a[1..], b[1..]);
      BeforeTail(a, b);
      assert a == [a[0]] + a[1..] && b == [b[0]] + b[1..];
    }
  }

  lemma {:induction false} FirstDiffers(a: string, b: string)
    requires a == "" || b == "" || a[0] != b[0]
    ensures StringLe(a, b) <==> a == b || Before(a, b)
  {
    var z: nat := 0;
    assert a[..0] == b[..0];
    assert DiffersAt(a, b, z);
    forall i: nat | i > 0
      ensures !DiffersAt(a, b, i)
    {
      NoLaterDifference(a, b, i);
    }
  }

  lemma {:induction false} NoLaterDifference(a: string, b: string, i: nat)
    requires i > 0 && (a == "" || b == "" || a[0] != b[0])
    ensures !DiffersAt(a, b, i)
  {
    if i <= |a| && i <= |b| {
      assert a[..i][0] == a[0] && b[..i][0] == b[0];
    }
  }

  lemma {:induction false} BeforeTail(a: string, b: string)
    requires a != "" && b != "" && a[0] == b[0]
    ensures Before(a, b) <==> Before(a[1..], b[1..])
  {
    forall i: nat
      ensures DiffersAt(a, b, i + 1) <==> DiffersAt(a[1..], b[1..], i)
    {
      DiffersInTail(a, b, i);
    }
    if i: nat :| DiffersAt(a, b, i) && i < |b| && (i < |a| ==> (a[i] as int) < b[i] as int) {
      assert i > 0;
      var j: nat := i - 1;
      assert DiffersAt(a, b, j + 1) && DiffersAt(a[1..], b[1..], j);
    }
    if Before(a[1..], b[1..]) {
      var c, d := a[1..], b[1..];
      var i: nat :| DiffersAt(c, d, i) && i < |d| && (i < |c| ==> (c[i] as int) < d[i] as int);
      assert DiffersAt(a, b, i + 1);
    }
  }

  lemma {:induction false} DiffersInTail(a: string, b: string, i: nat)
    requires a != "" && b != "" && a[0] == b[0]
    ensures DiffersAt(a, b, i + 1) <==> DiffersAt(a[1..], b[1..], i)
  {
    if i + 1 <= |a| && i + 1 <= |b| {
      assert a[..i + 1] == [a[0]] + a[1..][..i] && b[..i + 1] == [b[0]] + b[1..][..i];
      assert a[..i + 1][1..] == a[1..][..i] && b[..i + 1][1..] == b[1..][..i];
    }
  }

  lemma {:induction false} StringLeTotal(a: string, b: string)
    ensures StringLe(a, b) || StringLe(b, a)
    ensures StringLe(a, b) && StringLe(b, a) ==> a == b
  {
    if a != "" && b != "" && a[0] == b[0] {
      StringLeTotal(a[1..], b[1..]);
      if StringLe(a, b) && StringLe(b, a) {
        assert a == [a[0]] + a[1..] && b == [b[0]] + b[1..];
      }
    }
  }

  lemma {:induction false} StringLeTransitive(a: string, b: string, c: string)
    requires StringLe(a, b) && StringLe(b, c)
    ensures StringLe(a, c)
  {
    if a != "" && b[0] == a[0] == c[0] {
      StringLeTransitive(a[1..], b[1..], c[1..]);
    }
  }

  lemma {:induction false} StringOrder()
    ensures TotalPreorder(StringLe) && Antisymmetric(StringLe)
  {
    forall a, b, c
      ensures StringLe(a, b) || StringLe(b, a)
      ensures StringLe(a, b) && StringLe(b, a) ==> a == b
      ensures StringLe(a, b) && StringLe(b, c) ==> StringLe(a, c)
    {
      StringLeTotal(a, b);
      if StringLe(a, b) && StringLe(b, c) {
        StringLeTransitive(a, b, c);
      }
    }
  }
}
