/** Sums over sequences. */
module Sums {

  function Sum<T>(s: seq<T>, f: T -> nat): nat {
    if s == [] then 0 else Sum(s[..|s| - 1], f) + f(s[|s| - 1])
  }

  lemma {:induction false} SumZero<T>(s: seq<T>, f: T -> nat)
    requires forall e :: e in s ==> f(e) == 0
    ensures Sum(s, f) == 0
  {
    if s != [] {
      assert s[|s| - 1] in s;
      SumZero(s[..|s| - 1], f);
    }
  }

  lemma {:induction false} SumCongruent<T>(s: seq<T>, f: T -> nat, g: T -> nat)
    requires forall e :: e in s ==> f(e) == g(e)
    ensures Sum(s, f) == Sum(s, g)
  {
    if s != [] {
      assert s[|s| - 1] in s;
      SumCongruent(s[..|s| - 1], f, g);
    }
  }

  lemma {:induction false} SumAppend<T>(a: seq<T>, b: seq<T>, f: T -> nat)
    ensures Sum(a + b, f) == Sum(a, f) + Sum(b, f)
    decreases |b|
  {
    if b == [] {
      assert a + b == a;
    } else {
      assert (a + b)[..|a + b| - 1] == a + b[..|b| - 1];
      SumAppend(a, b[..|b| - 1], f);
    }
  }

  lemma {:induction false} SumPermutes<T>(a: seq<T>, b: seq<T>, f: T -> nat)
    requires multiset(a) == multiset(b)
    ensures Sum(a, f) == Sum(b, f)
    decreases |a|
  {
    if a == [] {
      assert |multiset(b)| == 0;
    } else {
      var n := |a| - 1;
      assert a[n] in multiset(b);
      var j :| 0 <= j < |b| && b[j] == a[n];
      Without(a, n);
      Without(b, j);
      assert a[..n] + a[n + 1..] == a[..n];
      SumPermutes(a[..n], b[..j] + b[j + 1..], f);
      SumWithout(b, j, f);
    }
  }

  lemma Without<T>(b: seq<T>, j: nat)
    requires j < |b|
    ensures multiset(b[..j] + b[j + 1..]) == multiset(b) - multiset{b[j]}
  {
    assert b == b[..j] + [b[j]] + b[j + 1..];
  }

  lemma SumWithout<T>(b: seq<T>, j: nat, f: T -> nat)
    requires j < |b|
    ensures Sum(b, f) == Sum(b[..j] + b[j + 1..], f) + f(b[j])
  {
    assert b == (b[..j] + [b[j]]) + b[j + 1..];
    SumAppend(b[..j] + [b[j]], b[j + 1..], f);
    SumAppend(b[..j], b[j + 1..], f);
    assert (b[..j] + [b[j]])[..j] == b[..j];
  }
}
