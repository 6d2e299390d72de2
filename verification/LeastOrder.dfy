/**
 The order in which the planner lists nodes, in its simplest form: again and again, take the
 first listed node whose dependencies have all been taken. No in-degrees, no adjacency lists,
 no queue. The lemmas say what this order is: the lexicographically least topological order,
 and complete exactly when the graph has no cycle.
 */
module LeastOrder {
  import opened Dag

  /** `ids` lists every node of `g` once. */
  ghost predicate Lists<T(!new)>(ids: seq<T>, g: Graph<T>) {
    Distinct(ids) && Elems(ids) == g.Keys
  }

  predicate IsReady<T(==)>(ids: seq<T>, g: Graph<T>, done: set<T>, i: nat)
    requires i < |ids|
  {
    ids[i] in g && ids[i] !in done && g[ids[i]] <= done
  }

  function FirstReady<T(==)>(ids: seq<T>, g: Graph<T>, done: set<T>, from: nat): (i: nat)
    requires from <= |ids|
    ensures from <= i <= |ids|
    ensures i < |ids| ==> IsReady(ids, g, done, i)
    ensures forall j :: from <= j < i ==> !IsReady(ids, g, done, j)
    decreases |ids| - from
  {
    if from == |ids| || IsReady(ids, g, done, from) then from else FirstReady(ids, g, done, from + 1)
  }

  function OrderFrom<T(!new)>(ids: seq<T>, g: Graph<T>, taken: seq<T>): (r: seq<T>)
    requires Distinct(taken) && Elems(taken) <= Elems(ids)
    ensures taken <= r
    ensures Distinct(r) && Elems(r) <= Elems(ids)
    ensures FirstReady(ids, g, Elems(r), 0) == |ids|
    decreases Elems(ids) - Elems(taken)
  {
    var i := FirstReady(ids, g, Elems(taken), 0);
    if i == |ids| then taken
    else
      assert Elems(taken + [ids[i]]) == Elems(taken) + {ids[i]};
      OrderFrom(ids, g, taken + [ids[i]])
  }

  function Order<T(!new)>(ids: seq<T>, g: Graph<T>): seq<T> {
    OrderFrom(ids, g, [])
  }

  /** Each element is the first ready node of the list, given the elements before it. */
  ghost predicate Greedy<T(!new)>(ids: seq<T>, g: Graph<T>, o: seq<T>) {
    forall k :: 0 <= k < |o| ==>
      var i := FirstReady(ids, g, Elems(o[..k]), 0);
      i < |ids| && o[k] == ids[i]
  }

  lemma {:induction false} OrderFromIsGreedy<T(!new)>(ids: seq<T>, g: Graph<T>, taken: seq<T>)
    requires Distinct(taken) && Elems(taken) <= Elems(ids)
    requires Greedy(ids, g, taken)
    ensures Greedy(ids, g, OrderFrom(ids, g, taken))
    decreases Elems(ids) - Elems(taken)
  {
    var i := FirstReady(ids, g, Elems(taken), 0);
    if i < |ids| {
      var next := taken + [ids[i]];
      assert Elems(next) == Elems(taken) + {ids[i]};
      forall k | 0 <= k < |next|
        ensures var j := FirstReady(ids, g, Elems(next[..k]), 0); j < |ids| && next[k] == ids[j]
      {
        assert next[..k] == taken[..k];
      }
      OrderFromIsGreedy(ids, g, next);
    }
  }

  lemma GreedyIsTopological<T(!new)>(ids: seq<T>, g: Graph<T>, o: seq<T>)
    requires Greedy(ids, g, o) && Distinct(o) && Elems(o) == g.Keys
    ensures IsTopological(g, o)
  {
  }

  // ---- least among all topological orders ----

  function Position<T(==)>(ids: seq<T>, id: T): (i: nat)
    requires id in ids
    ensures i < |ids| && ids[i] == id
  {
    if ids[0] == id then 0 else 1 + Position(ids[1..], id)
  }

  ghost predicate FirstDifference<T(!new)>(a: seq<T>, b: seq<T>, k: nat) {
    k < |a| && k < |b| && a[..k] == b[..k] && a[k] != b[k]
  }

  /** At the first place where the orders differ, `a` names the node listed earlier. */
  ghost predicate LexLeq<T(!new)>(ids: seq<T>, a: seq<T>, b: seq<T>)
    requires Elems(a) <= Elems(ids) && Elems(b) <= Elems(ids)
  {
    || a == b
    || exists k: nat :: FirstDifference(a, b, k) && EarlierListed(ids, a[k], b[k])
  }

  ghost predicate EarlierListed<T(!new)>(ids: seq<T>, x: T, y: T) {
    x in ids && y in ids && Position(ids, x) < Position(ids, y)
  }

  lemma {:induction false} FindFirstDifference<T(!new)>(a: seq<T>, b: seq<T>, k: nat) returns (d: nat)
    requires |a| == |b| && a != b && k <= |a| && a[..k] == b[..k]
    ensures FirstDifference(a, b, d)
    decreases |a| - k
  {
    if k < |a| && a[k] != b[k] {
      d := k;
    } else {
      assert k < |a| by {
        assert a[..|a|] == a && b[..|b|] == b;
      }
      assert a[..k + 1] == a[..k] + [a[k]] == b[..k] + [b[k]] == b[..k + 1];
      d := FindFirstDifference(a, b, k + 1);
    }
  }

  lemma FirstReadyIsLeast<T(!new)>(ids: seq<T>, g: Graph<T>, done: set<T>, j: nat)
    requires j < |ids| && IsReady(ids, g, done, j)
    ensures FirstReady(ids, g, done, 0) <= j
  {
  }

  lemma NextIsReady<T(!new)>(ids: seq<T>, g: Graph<T>, t: seq<T>, k: nat)
    requires Lists(ids, g) && IsTopological(g, t) && k < |t|
    ensures t[k] in ids && IsReady(ids, g, Elems(t[..k]), Position(ids, t[k]))
  {
    assert t[k] in Elems(t);
    assert t[k] !in t[..k];
  }

  lemma GreedyPosition<T(!new)>(ids: seq<T>, g: Graph<T>, o: seq<T>, k: nat)
    requires Distinct(ids) && Greedy(ids, g, o) && k < |o|
    ensures o[k] in ids && Position(ids, o[k]) == FirstReady(ids, g, Elems(o[..k]), 0)
  {
  }

  lemma ReadyNotEarlier<T(!new)>(ids: seq<T>, g: Graph<T>, done: set<T>, x: T, y: T)
    requires x in ids && y in ids && x != y
    requires Position(ids, x) == FirstReady(ids, g, done, 0)
    requires IsReady(ids, g, done, Position(ids, y))
    ensures EarlierListed(ids, x, y)
  {
    FirstReadyIsLeast(ids, g, done, Position(ids, y));
  }

  lemma LeastAtDifference<T(!new)>(ids: seq<T>, g: Graph<T>, o: seq<T>, t: seq<T>, k: nat)
    requires Lists(ids, g) && Greedy(ids, g, o) && IsTopological(g, t)
    requires FirstDifference(o, t, k)
    ensures EarlierListed(ids, o[k], t[k])
  {
    GreedyPosition(ids, g, o, k);
    NextIsReady(ids, g, t, k);
    ReadyNotEarlier(ids, g, Elems(t[..k]), o[k], t[k]);
  }

  lemma GreedyIsLeast<T(!new)>(ids: seq<T>, g: Graph<T>, o: seq<T>, t: seq<T>)
    requires Lists(ids, g) && Greedy(ids, g, o)
    requires Distinct(o) && Elems(o) == g.Keys
    requires IsTopological(g, t)
    ensures LexLeq(ids, o, t)
  {
    if o != t {
      SameSize(o, t);
      var k := FindFirstDifference(o, t, 0);
      LeastAtDifference(ids, g, o, t, k);
    }
  }

  // ---- complete exactly when acyclic ----

  lemma SourceIsReady<T(!new)>(ids: seq<T>, g: Graph<T>, done: set<T>, n: T)
    requires Lists(ids, g) && Closed(g)
    requires n in Elems(ids) - done && g[n] * (Elems(ids) - done) == {}
    ensures IsReady(ids, g, done, Position(ids, n))
  {
    assert forall d :: d in g[n] && d in Elems(ids) - done ==> d in g[n] * (Elems(ids) - done);
  }

  lemma IncompleteHasCycle<T(!new)>(ids: seq<T>, g: Graph<T>)
    requires Lists(ids, g) && Closed(g)
    requires Elems(Order(ids, g)) != Elems(ids)
    ensures !Acyclic(g)
  {
    if Acyclic(g) {
      var done := Elems(Order(ids, g));
      var start := PickMissing(Elems(ids), done);
      var n := FindSource(g, Elems(ids) - done, start);
      SourceIsReady(ids, g, done, n);
    }
  }

  lemma SizeIffElems<T(!new)>(ids: seq<T>, o: seq<T>)
    requires Distinct(ids) && Distinct(o) && Elems(o) <= Elems(ids)
    ensures |o| == |ids| <==> Elems(o) == Elems(ids)
  {
    DistinctSize(o);
    DistinctSize(ids);
    assert Elems(ids) == Elems(o) + (Elems(ids) - Elems(o));
  }

  /** The order lists every node exactly when the dependency graph has no cycle. */
  lemma CompleteIffAcyclic<T(!new)>(ids: seq<T>, g: Graph<T>)
    requires Lists(ids, g) && Closed(g)
    ensures |Order(ids, g)| == |ids| <==> Acyclic(g)
  {
    var o := Order(ids, g);
    SizeIffElems(ids, o);
    if Elems(o) == Elems(ids) {
      OrderFromIsGreedy(ids, g, []);
      GreedyIsTopological(ids, g, o);
      TopologicalIsRanked(g, o);
      RankedIsAcyclic(g, Ranks(o));
    } else {
      IncompleteHasCycle(ids, g);
    }
  }

  /** When complete, the order is a topological order and no topological order precedes it. */
  lemma LeastTopologicalOrder<T(!new)>(ids: seq<T>, g: Graph<T>)
    requires Lists(ids, g) && |Order(ids, g)| == |ids|
    ensures IsTopological(g, Order(ids, g))
    ensures forall t :: IsTopological(g, t) ==> LexLeq(ids, Order(ids, g), t)
  {
    var o := Order(ids, g);
    SizeIffElems(ids, o);
    OrderFromIsGreedy(ids, g, []);
    GreedyIsTopological(ids, g, o);
    forall t | IsTopological(g, t) ensures LexLeq(ids, o, t) {
      GreedyIsLeast(ids, g, o, t);
    }
  }
}
