/** Sequences in strictly ascending key order. */
module Sorting {

  ghost predicate AscendingBy<T(!new)>(s: seq<T>, key: T -> nat) {
    forall a, b :: 0 <= a < b < |s| ==> key(s[a]) < key(s[b])
  }

  lemma LastIsGreatest<T(!new)>(s: seq<T>, key: T -> nat, x: T)
    requires s != [] && AscendingBy(s, key) && x in s
    ensures key(x) <= key(s[|s| - 1])
    ensures key(x) == key(s[|s| - 1]) ==> x == s[|s| - 1]
    ensures x in s[..|s| - 1] <==> x != s[|s| - 1]
  {
    var k := |s| - 1;
    var i :| 0 <= i < |s| && s[i] == x;
    if i < k {
      assert s[..k][i] == x;
    }
  }

  /** Two strictly ascending sequences with the same members are equal. */
  lemma {:induction false} SameAscending<T(!new)>(a: seq<T>, b: seq<T>, key: T -> nat)
    requires forall x :: x in a <==> x in b
    requires AscendingBy(a, key) && AscendingBy(b, key)
    ensures a == b
  {
    assert |a| > 0 ==> a[0] in b;
    assert |b| > 0 ==> b[0] in a;
    if |a| > 0 {
      var a', b' := a[..|a| - 1], b[..|b| - 1];
      var x, y := a[|a| - 1], b[|b| - 1];
      LastIsGreatest(a, key, y);
      LastIsGreatest(b, key, x);
      forall z ensures z in a' <==> z in b' {
        if z in a {
          LastIsGreatest(a, key, z);
          LastIsGreatest(b, key, z);
        }
      }
      SameAscending(a', b', key);
    }
  }

  /** Inserts `x` before the first element with a greater key. */
  function InsertBy<T(!new)>(x: T, s: seq<T>, key: T -> nat): (r: seq<T>)
    requires AscendingBy(s, key)
    requires forall y :: y in s ==> key(y) != key(x)
    ensures AscendingBy(r, key)
    ensures forall y :: y in r <==> y == x || y in s
  {
    if s == [] || key(x) < key(s[0]) then [x] + s
    else
      assert forall y :: y in s <==> y == s[0] || y in s[1..];
      var rest := InsertBy(x, s[1..], key);
      assert forall y :: y in s[1..] ==> key(s[0]) < key(y);
      assert forall y :: y in rest ==> key(s[0]) < key(y);
      assert forall i :: 0 <= i < |rest| ==> rest[i] in rest;
      [s[0]] + rest
  }

  /** Sorting by distinct keys. */
  function SortBy<T(!new)>(s: seq<T>, key: T -> nat): (r: seq<T>)
    requires forall i, j :: 0 <= i < j < |s| ==> key(s[i]) != key(s[j])
    ensures AscendingBy(r, key)
    ensures forall y :: y in r <==> y in s
  {
    if s == [] then []
    else
      assert forall y :: y in s <==> y == s[0] || y in s[1..];
      InsertBy(s[0], SortBy(s[1..], key), key)
  }

  /** Sorting the members of a set by distinct keys. */
  method SortedSet<T(==, !new)>(s: set<T>, key: T -> nat) returns (r: seq<T>)
    requires forall x, y :: x in s && y in s && x != y ==> key(x) != key(y)
    ensures AscendingBy(r, key)
    ensures forall x :: x in r <==> x in s
  {
    r := [];
    var rest := s;
    while rest != {}
      invariant rest <= s
      invariant AscendingBy(r, key)
      invariant forall x :: x in r <==> x in s - rest
      decreases rest
    {
      var x :| x in rest;
      r := InsertBy(x, r, key);
      rest := rest - {x};
    }
  }
}
