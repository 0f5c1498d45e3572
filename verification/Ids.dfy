/** Identifiers are strings.  Python compares them code point by code point; `sorted`
    on a set of ids is the one strictly increasing sequence of its elements. */
module Ids {

  /** Python's `a <= b` on strings. */
  predicate Le(a: string, b: string)
    decreases |a|
  {
    a == [] || (b != [] && (a[0] < b[0] || (a[0] == b[0] && Le(a[1..], b[1..]))))
  }

  /** `a` and `b` differ for the first time at `k`, where `a` has the smaller character. */
  predicate SmallerAt(a: string, b: string, k: nat) {
    k < |a| && k < |b| && a[..k] == b[..k] && a[k] < b[k]
  }

  /** `a` is a prefix of `b`, or smaller where they first differ. */
  ghost predicate CodePointOrder(a: string, b: string) {
    a <= b || exists k: nat :: SmallerAt(a, b, k)
  }

  /** The recursion compares code point by code point. */
  lemma {:induction false} LeIsCodePointOrder(a: string, b: string)
    ensures Le(a, b) <==> CodePointOrder(a, b)
    decreases |a|
  {
    if a != [] && b != [] && a[0] == b[0] {
      LeIsCodePointOrder(a[1..], b[1..]);
      assert a == [a[0]] + a[1..] && b == [b[0]] + b[1..];
      if k: nat :| SmallerAt(a[1..], b[1..], k) {
        assert a[..k + 1] == [a[0]] + a[1..][..k] && b[..k + 1] == [b[0]] + b[1..][..k];
        assert SmallerAt(a, b, k + 1);
      }
      if k: nat :| SmallerAt(a, b, k) {
        assert a[1..][..k - 1] == a[..k][1..] && b[1..][..k - 1] == b[..k][1..];
        assert SmallerAt(a[1..], b[1..], k - 1);
      }
    } else if a != [] && b != [] && a[0] < b[0] {
      assert SmallerAt(a, b, 0);
    }
  }

  lemma {:induction false} LeReflexive(a: string)
    ensures Le(a, a)
    decreases |a|
  {
    if a != [] {
      LeReflexive(a[1..]);
    }
  }

  lemma {:induction false} LeTotal(a: string, b: string)
    ensures Le(a, b) || Le(b, a)
    decreases |a|
  {
    if a != [] && b != [] {
      LeTotal(a[1..], b[1..]);
    }
  }

  lemma {:induction false} LeAntisymmetric(a: string, b: string)
    requires Le(a, b) && Le(b, a)
    ensures a == b
    decreases |a|
  {
    if a != [] {
      LeAntisymmetric(a[1..], b[1..]);
      assert a == [a[0]] + a[1..] && b == [b[0]] + b[1..];
    }
  }

  lemma {:induction false} LeTransitive(a: string, b: string, c: string)
    requires Le(a, b) && Le(b, c)
    ensures Le(a, c)
    decreases |a|
  {
    if a != [] && a[0] == b[0] && b[0] == c[0] {
      LeTransitive(a[1..], b[1..], c[1..]);
    }
  }

  ghost predicate IsLeast(m: string, ids: set<string>) {
    m in ids && forall x | x in ids :: Le(m, x)
  }

  lemma {:induction false} LeastExists(ids: set<string>)
    requires ids != {}
    ensures exists m :: IsLeast(m, ids)
    decreases ids
  {
    var x :| x in ids;
    LeReflexive(x);
    if ids == {x} {
      assert IsLeast(x, ids);
    } else {
      LeastExists(ids - {x});
      var m :| IsLeast(m, ids - {x});
      LeTotal(x, m);
      if Le(x, m) {
        forall y | y in ids
          ensures Le(x, y)
        {
          if y != x {
            LeTransitive(x, m, y);
          }
        }
        assert IsLeast(x, ids);
      } else {
        assert IsLeast(m, ids);
      }
    }
  }

  /** Python's `sorted(ids)[0]`. */
  function Least(ids: set<string>): (m: string)
    requires ids != {}
    ensures IsLeast(m, ids)
  {
    LeastExists(ids);
    assert exists m | m in ids :: forall x | x in ids :: Le(m, x) by {
      var m :| IsLeast(m, ids);
    }
    assert forall m, n | m in ids && n in ids && (forall x | x in ids :: Le(m, x)) && (forall x | x in ids :: Le(n, x)) :: m == n by {
      forall m, n | m in ids && n in ids && (forall x | x in ids :: Le(m, x)) && (forall x | x in ids :: Le(n, x))
        ensures m == n
      {
        LeAntisymmetric(m, n);
      }
    }
    var m :| m in ids && forall x | x in ids :: Le(m, x);
    m
  }

  function Elements(s: seq<string>): set<string> {
    set x | x in s
  }

  ghost predicate Distinct(s: seq<string>) {
    forall i, j | 0 <= i < j < |s| :: s[i] != s[j]
  }

  ghost predicate Increasing(s: seq<string>) {
    forall i, j | 0 <= i < j < |s| :: Le(s[i], s[j]) && s[i] != s[j]
  }

  /** Python's `sorted(ids)`. */
  function Sorted(ids: set<string>): (s: seq<string>)
    ensures Increasing(s)
    ensures forall x :: x in s <==> x in ids
    decreases ids
  {
    if ids == {} then [] else
      var m := Least(ids);
      [m] + Sorted(ids - {m})
  }

  lemma {:induction false} SortedContents(ids: set<string>)
    ensures multiset(Sorted(ids)) == multiset(ids)
    ensures Elements(Sorted(ids)) == ids
    ensures |Sorted(ids)| == |ids|
    decreases ids
  {
    if ids != {} {
      var m := Least(ids);
      SortedContents(ids - {m});
      assert multiset(ids) == multiset{m} + multiset(ids - {m});
    }
  }

  lemma SortedHead(ids: set<string>)
    requires ids != {}
    ensures |Sorted(ids)| > 0 && Sorted(ids)[0] == Least(ids)
  {
  }

  lemma SortedOfOne(x: string)
    ensures Sorted({x}) == [x]
  {
    var rest := {x} - {x};
    assert rest == {};
    assert Least({x}) == x;
  }
}
