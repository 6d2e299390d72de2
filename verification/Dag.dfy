/** Finite dependency graphs: paths, cycles, ranks and topological orders. */
module Dag {

  /** Maps each node to the set of nodes it depends on directly. */
  type Graph<T> = map<T, set<T>>

  function Elems<T>(s: seq<T>): set<T> {
    set x | x in s
  }

  ghost predicate Distinct<T>(s: seq<T>) {
    forall i, j :: 0 <= i < j < |s| ==> s[i] != s[j]
  }

  /** `r` lists elements of `order` in the same order. */
  ghost predicate InOrder<T>(r: seq<T>, order: seq<T>) {
    forall i, j, a, b ::
      0 <= i < j < |r| && 0 <= a < |order| && 0 <= b < |order| && r[i] == order[a] && r[j] == order[b] ==> a < b
  }

  ghost predicate Closed<T(!new)>(g: Graph<T>) {
    forall n :: n in g ==> g[n] <= g.Keys
  }

  /** A non-empty walk from a node to one of its dependencies, and so on. */
  ghost predicate IsPath<T(!new)>(g: Graph<T>, p: seq<T>) {
    && |p| > 0
    && p[0] in g
    && (|p| > 1 ==> p[1] in g[p[0]] && IsPath(g, p[1..]))
  }

  ghost predicate Connects<T(!new)>(g: Graph<T>, p: seq<T>, a: T, b: T) {
    IsPath(g, p) && p[0] == a && p[|p| - 1] == b
  }

  /** `a` is `b`, or depends on it directly or transitively. */
  ghost predicate Reaches<T(!new)>(g: Graph<T>, a: T, b: T) {
    exists p :: Connects(g, p, a, b)
  }

  /** `a` depends on `b` directly or transitively, through at least one edge. */
  ghost predicate DependsOn<T(!new)>(g: Graph<T>, a: T, b: T) {
    exists p :: Connects(g, p, a, b) && |p| > 1
  }

  ghost predicate Acyclic<T(!new)>(g: Graph<T>) {
    forall n :: !DependsOn(g, n, n)
  }

  /** Every node listed once, each after all its dependencies. */
  ghost predicate IsTopological<T(!new)>(g: Graph<T>, t: seq<T>) {
    && Distinct(t)
    && Elems(t) == g.Keys
    && forall i :: 0 <= i < |t| ==> g[t[i]] <= Elems(t[..i])
  }

  /** Ranks that strictly drop along every dependency. */
  ghost predicate Ranked<T(!new)>(g: Graph<T>, rank: map<T, nat>) {
    && g.Keys <= rank.Keys
    && forall n, d :: n in g && d in g[n] ==> d in rank && rank[d] < rank[n]
  }

  // ---- paths ----

  lemma {:induction false} PathDescends<T(!new)>(g: Graph<T>, rank: map<T, nat>, p: seq<T>)
    requires Ranked(g, rank) && IsPath(g, p)
    ensures p[|p| - 1] in rank
    ensures rank[p[|p| - 1]] + |p| - 1 <= rank[p[0]]
  {
    if |p| > 1 {
      PathDescends(g, rank, p[1..]);
    }
  }

  lemma {:induction false} PathConcat<T(!new)>(g: Graph<T>, p: seq<T>, q: seq<T>)
    requires IsPath(g, p) && IsPath(g, q) && p[|p| - 1] == q[0]
    ensures IsPath(g, p + q[1..])
  {
    if |p| == 1 {
      assert p + q[1..] == q;
    } else {
      PathConcat(g, p[1..], q);
      assert (p + q[1..])[1..] == p[1..] + q[1..];
    }
  }

  lemma {:induction false} SubPath<T(!new)>(g: Graph<T>, p: seq<T>, i: nat, j: nat)
    requires IsPath(g, p) && i < j <= |p|
    ensures IsPath(g, p[i..j])
    decreases |p|
  {
    if i > 0 {
      SubPath(g, p[1..], i - 1, j - 1);
      assert p[1..][i - 1..j - 1] == p[i..j];
    } else if j > 1 {
      SubPath(g, p[1..], 0, j - 1);
      assert p[0..j][1..] == p[1..][0..j - 1];
    }
  }

  lemma {:induction false} PathMonotone<T(!new)>(g: Graph<T>, h: Graph<T>, p: seq<T>)
    requires IsPath(g, p)
    requires forall n :: n in g ==> n in h && g[n] <= h[n]
    ensures IsPath(h, p)
  {
    if |p| > 1 {
      PathMonotone(g, h, p[1..]);
    }
  }

  lemma EdgeReaches<T(!new)>(g: Graph<T>, a: T, b: T)
    requires a in g && b in g && b in g[a]
    ensures DependsOn(g, a, b)
  {
    assert [a, b][1..] == [b];
    assert Connects(g, [a, b], a, b);
  }

  lemma SelfReaches<T(!new)>(g: Graph<T>, a: T)
    requires a in g
    ensures Reaches(g, a, a)
  {
    assert Connects(g, [a], a, a);
  }

  lemma ReachesTransitive<T(!new)>(g: Graph<T>, a: T, b: T, c: T)
    requires Reaches(g, a, b) && Reaches(g, b, c)
    ensures Reaches(g, a, c)
    ensures DependsOn(g, a, b) || DependsOn(g, b, c) ==> DependsOn(g, a, c)
  {
    var p :| Connects(g, p, a, b) && (DependsOn(g, a, b) ==> |p| > 1);
    var q :| Connects(g, q, b, c) && (DependsOn(g, b, c) ==> |q| > 1);
    PathConcat(g, p, q);
    assert Connects(g, p + q[1..], a, c);
  }

  lemma ReachesMonotone<T(!new)>(g: Graph<T>, h: Graph<T>, a: T, b: T)
    requires Reaches(g, a, b)
    requires forall n :: n in g ==> n in h && g[n] <= h[n]
    ensures Reaches(h, a, b)
  {
    var p :| Connects(g, p, a, b);
    PathMonotone(g, h, p);
    assert Connects(h, p, a, b);
  }

  /** `f` takes nodes to nodes and edges between them to edges. */
  ghost predicate Embeds<T(!new)>(g: Graph<T>, h: Graph<T>, f: map<T, T>) {
    && (forall n :: n in g ==> n in f && f[n] in h)
    && (forall n, d :: n in g && d in g && d in g[n] ==> f[d] in h[f[n]])
  }

  ghost function Image<T(!new)>(f: map<T, T>, p: seq<T>): (q: seq<T>)
    requires forall i :: 0 <= i < |p| ==> p[i] in f
    ensures |q| == |p| && forall i :: 0 <= i < |p| ==> q[i] == f[p[i]]
  {
    seq(|p|, i requires 0 <= i < |p| => f[p[i]])
  }

  lemma {:induction false} PathStays<T(!new)>(g: Graph<T>, p: seq<T>)
    requires IsPath(g, p)
    ensures forall i :: 0 <= i < |p| ==> p[i] in g
  {
    if |p| > 1 {
      PathStays(g, p[1..]);
      assert forall i :: 0 < i < |p| ==> p[i] == p[1..][i - 1];
    }
  }

  lemma {:induction false} PathImage<T(!new)>(g: Graph<T>, h: Graph<T>, f: map<T, T>, p: seq<T>)
    requires Embeds(g, h, f) && IsPath(g, p)
    requires forall i :: 0 <= i < |p| ==> p[i] in g
    ensures IsPath(h, Image(f, p))
  {
    if |p| > 1 {
      assert p[1..][0] == p[1] && p[1] in g;
      PathImage(g, h, f, p[1..]);
      assert Image(f, p)[1..] == Image(f, p[1..]);
    }
  }

  lemma EmbeddedAcyclic<T(!new)>(g: Graph<T>, h: Graph<T>, f: map<T, T>)
    requires Embeds(g, h, f) && Acyclic(h)
    ensures Acyclic(g)
  {
    forall n | DependsOn(g, n, n) ensures DependsOn(h, f[n], f[n]) {
      var p :| Connects(g, p, n, n) && |p| > 1;
      PathStays(g, p);
      PathImage(g, h, f, p);
      assert Connects(h, Image(f, p), f[n], f[n]);
    }
  }

  // ---- ranks ----

  lemma RankedIsAcyclic<T(!new)>(g: Graph<T>, rank: map<T, nat>)
    requires Ranked(g, rank)
    ensures Acyclic(g)
  {
    forall n | DependsOn(g, n, n) ensures false {
      var p :| Connects(g, p, n, n) && |p| > 1;
      PathDescends(g, rank, p);
    }
  }

  function Ranks<T(!new)>(t: seq<T>): (rank: map<T, nat>)
    requires Distinct(t)
    ensures rank.Keys == Elems(t)
    ensures forall i :: 0 <= i < |t| ==> rank[t[i]] == i
  {
    if t == [] then map[] else Ranks(t[..|t| - 1])[t[|t| - 1] := |t| - 1]
  }

  lemma TopologicalIsRanked<T(!new)>(g: Graph<T>, t: seq<T>)
    requires IsTopological(g, t)
    ensures Ranked(g, Ranks(t)) && Closed(g)
  {
    forall n, d | n in g && d in g[n]
      ensures d in g && Ranks(t)[d] < Ranks(t)[n]
    {
      var i :| 0 <= i < |t| && t[i] == n;
      assert d in Elems(t[..i]);
    }
  }

  // ---- a finite stuck set contains a cycle ----

  ghost predicate Stuck<T(!new)>(g: Graph<T>, r: set<T>) {
    && r <= g.Keys
    && forall n :: n in r ==> g[n] * r != {}
  }

  ghost function Walk<T(!new)>(g: Graph<T>, r: set<T>, n: T, k: nat): (p: seq<T>)
    requires Stuck(g, r) && n in r
    ensures |p| == k + 1 && p[0] == n && Elems(p) <= r
    ensures IsPath(g, p)
    decreases k
  {
    if k == 0 then [n]
    else
      var d :| d in g[n] * r;
      var rest := Walk(g, r, d, k - 1);
      assert ([n] + rest)[1..] == rest;
      [n] + rest
  }

  lemma {:induction false} DistinctSize<T>(s: seq<T>)
    requires Distinct(s)
    ensures |Elems(s)| == |s|
  {
    if s != [] {
      var k := |s| - 1;
      DistinctSize(s[..k]);
      assert Elems(s) == Elems(s[..k]) + {s[k]};
      assert s[k] !in s[..k];
    }
  }

  lemma SubsetSize<T>(a: set<T>, b: set<T>)
    requires a <= b
    ensures |a| <= |b|
  {
    assert b == a + (b - a);
  }

  lemma SameSize<T>(a: seq<T>, b: seq<T>)
    requires Distinct(a) && Distinct(b) && Elems(a) == Elems(b)
    ensures |a| == |b|
  {
    DistinctSize(a);
    DistinctSize(b);
  }

  lemma PickMissing<T>(a: set<T>, b: set<T>) returns (x: T)
    requires b <= a && b != a
    ensures x in a - b
  {
    assert exists y :: y in a && y !in b;
    x :| x in a && x !in b;
  }

  lemma Pigeonhole<T>(s: seq<T>, r: set<T>) returns (i: nat, j: nat)
    requires Elems(s) <= r && |s| > |r|
    ensures i < j < |s| && s[i] == s[j]
  {
    if Distinct(s) {
      DistinctSize(s);
      SubsetSize(Elems(s), r);
      assert false;
    }
    i, j :| 0 <= i < j < |s| && s[i] == s[j];
  }

  lemma RepeatIsCycle<T(!new)>(g: Graph<T>, p: seq<T>, i: nat, j: nat)
    requires IsPath(g, p) && i < j < |p| && p[i] == p[j]
    ensures DependsOn(g, p[i], p[i])
  {
    SubPath(g, p, i, j + 1);
    var q := p[i..j + 1];
    assert |q| == j + 1 - i && q[0] == p[i] && q[j - i] == p[j];
    assert Connects(g, q, p[i], p[i]);
  }

  lemma StuckHasCycle<T(!new)>(g: Graph<T>, r: set<T>, start: T) returns (n: T)
    requires Stuck(g, r) && start in r
    ensures n in r && DependsOn(g, n, n)
  {
    var p := Walk(g, r, start, |r|);
    var i, j := Pigeonhole(p, r);
    RepeatIsCycle(g, p, i, j);
    n := p[i];
  }

  // ---- acyclic graphs have ranks ----

  ghost predicate PartialRank<T(!new)>(g: Graph<T>, rank: map<T, nat>) {
    && rank.Keys <= g.Keys
    && (forall n :: n in rank ==> rank[n] < |rank| && g[n] <= rank.Keys)
    && (forall n, d :: n in rank && d in g[n] ==> rank[d] < rank[n])
  }

  /** In an acyclic graph, some member of a non-empty set depends on no other member. */
  lemma FindSource<T(!new)>(g: Graph<T>, r: set<T>, start: T) returns (n: T)
    requires Acyclic(g) && r <= g.Keys && start in r
    ensures n in r && g[n] * r == {}
  {
    if Stuck(g, r) {
      n := StuckHasCycle(g, r, start);
      assert false;
    }
    n :| n in r && g[n] * r == {};
  }

  lemma ExtendRank<T(!new)>(g: Graph<T>, rank: map<T, nat>, n: T)
    requires Closed(g) && PartialRank(g, rank)
    requires n in g && n !in rank && g[n] <= rank.Keys
    ensures PartialRank(g, rank[n := |rank|])
  {
    var next := rank[n := |rank|];
    assert |next| == |rank| + 1;
    forall m | m in next
      ensures next[m] < |next| && g[m] <= next.Keys
      ensures forall d :: d in g[m] ==> next[d] < next[m]
    {
      if m != n {
        assert m in rank;
      }
    }
  }

  lemma {:induction false} CompleteRank<T(!new)>(g: Graph<T>, rank: map<T, nat>) returns (full: map<T, nat>)
    requires Closed(g) && Acyclic(g) && PartialRank(g, rank)
    ensures Ranked(g, full)
    decreases g.Keys - rank.Keys
  {
    var rest := g.Keys - rank.Keys;
    if g.Keys <= rank.Keys {
      return rank;
    }
    var start :| start in g && start !in rank;
    var n := FindSource(g, rest, start);
    assert g[n] <= rank.Keys by {
      assert forall d :: d in g[n] && d in rest ==> d in g[n] * rest;
    }
    ExtendRank(g, rank, n);
    full := CompleteRank(g, rank[n := |rank|]);
  }

  /** A closed graph has no cycle exactly when its nodes can be ranked. */
  lemma AcyclicIffRanked<T(!new)>(g: Graph<T>)
    requires Closed(g)
    ensures Acyclic(g) <==> exists rank :: Ranked(g, rank)
  {
    if Acyclic(g) {
      var rank := CompleteRank(g, map[]);
      assert Ranked(g, rank);
    }
    if rank :| Ranked(g, rank) {
      RankedIsAcyclic(g, rank);
    }
  }
}
