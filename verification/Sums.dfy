/** Sums of weights over sequences. */
module Sums {

  function Sum<T>(s: seq<T>, f: T -> nat): nat {
    if s == [] then 0 else f(s[0]) + Sum(s[1..], f)
  }

  lemma {:induction false} SumAppend<T>(a: seq<T>, b: seq<T>, f: T -> nat)
    ensures Sum(a + b, f) == Sum(a, f) + Sum(b, f)
  {
    if a == [] {
      assert a + b == b;
    } else {
      assert (a + b)[1..] == a[1..] + b;
      SumAppend(a[1..], b, f);
    }
  }

  lemma {:induction false} SumCongruent<T>(s: seq<T>, f: T -> nat, g: T -> nat)
    requires forall i :: 0 <= i < |s| ==> f(s[i]) == g(s[i])
    ensures Sum(s, f) == Sum(s, g)
  {
    if s != [] {
      SumCongruent(s[1..], f, g);
    }
  }

  lemma {:induction false} SumBound<T>(s: seq<T>, f: T -> nat, c: nat)
    requires forall i :: 0 <= i < |s| ==> f(s[i]) <= c
    ensures Sum(s, f) <= |s| * c
  {
    if s != [] {
      SumBound(s[1..], f, c);
    }
  }

  /** Replacing one element, under weights that agree elsewhere. */
  lemma {:induction false} SumReplace<T>(s: seq<T>, i: nat, x: T, f: T -> nat, g: T -> nat)
    requires i < |s|
    requires forall j :: 0 <= j < |s| && j != i ==> f(s[j]) == g(s[j])
    ensures Sum(s[i := x], g) + f(s[i]) == Sum(s, f) + g(x)
  {
    if i > 0 {
      assert s[i := x][1..] == s[1..][i - 1 := x];
      SumReplace(s[1..], i - 1, x, f, g);
    } else {
      assert s[0 := x][1..] == s[1..];
      SumCongruent(s[1..], f, g);
    }
  }

  lemma {:induction false} SumMonotone<T>(s: seq<T>, f: T -> nat, g: T -> nat)
    requires forall i :: 0 <= i < |s| ==> g(s[i]) <= f(s[i])
    ensures Sum(s, g) <= Sum(s, f)
  {
    if s != [] {
      SumMonotone(s[1..], f, g);
    }
  }

  /** No weight grows, and one drops by `d`. */
  lemma {:induction false} SumDrops<T>(s: seq<T>, i: nat, f: T -> nat, g: T -> nat, d: nat)
    requires i < |s| && g(s[i]) + d <= f(s[i])
    requires forall j :: 0 <= j < |s| ==> g(s[j]) <= f(s[j])
    ensures Sum(s, g) + d <= Sum(s, f)
  {
    if i > 0 {
      SumDrops(s[1..], i - 1, f, g, d);
    } else {
      SumMonotone(s[1..], f, g);
    }
  }

  lemma {:induction false} SumAt<T>(s: seq<T>, i: nat, f: T -> nat)
    requires i < |s|
    ensures f(s[i]) <= Sum(s, f)
  {
    if i > 0 {
      SumAt(s[1..], i - 1, f);
    }
  }
}
