/**
 The planner's topological sort: in-degree counters, adjacency lists and a priority queue of
 ready nodes keyed by listed position. It computes the order defined in module LeastOrder.
 */
module TopologicalSort {
  import opened Dag
  import opened LeastOrder
  import opened Sorting

  /** A queue entry: listed position and node, compared by position. */
  datatype Entry<T> = Entry(position: nat, node: T)

  method PopLeast<T(==, !new)>(ready: seq<Entry<T>>) returns (least: Entry<T>, rest: seq<Entry<T>>)
    requires ready != []
    requires forall i, j :: 0 <= i < j < |ready| ==> ready[i] != ready[j]
    ensures least in ready && forall e :: e in ready ==> least.position <= e.position
    ensures |rest| == |ready| - 1
    ensures forall i, j :: 0 <= i < j < |rest| ==> rest[i] != rest[j]
    ensures forall e :: e in rest <==> e in ready && e != least
  {
    var m := 0;
    for i := 1 to |ready|
      invariant m < |ready|
      invariant forall j :: 0 <= j < i ==> ready[m].position <= ready[j].position
    {
      if ready[i].position < ready[m].position {
        m := i;
      }
    }
    least, rest := ready[m], ready[..m] + ready[m + 1..];
    forall i | 0 <= i < |ready| && ready[i] != least ensures ready[i] in rest {
      assert i < m ==> rest[i] == ready[i];
      assert i > m ==> rest[i - 1] == ready[i];
    }
  }

  /** Counters and adjacency lists that describe `g`. */
  ghost predicate Describes<T(!new)>(g: Graph<T>, indegree: map<T, nat>, adjacency: map<T, seq<T>>) {
    && indegree.Keys == g.Keys && adjacency.Keys == g.Keys
    && (forall n :: n in g ==> indegree[n] == |g[n]|)
    && (forall d :: d in g ==> DownstreamOf(g, adjacency[d], d))
  }

  /** `adjacent` lists once each node that depends on `d` directly. */
  ghost predicate DownstreamOf<T(!new)>(g: Graph<T>, adjacent: seq<T>, d: T) {
    && Distinct(adjacent)
    && forall n :: n in adjacent <==> n in g && d in g[n]
  }

  /** The counters count the dependencies not yet taken. */
  ghost predicate Counts<T(!new)>(g: Graph<T>, indegree: map<T, nat>, taken: set<T>) {
    indegree.Keys == g.Keys && forall n :: n in g ==> indegree[n] == |g[n] - taken|
  }

  /** The queue holds exactly the nodes not taken whose counter is zero, once each. */
  ghost predicate QueueHolds<T(!new)>(ids: seq<T>, ready: seq<Entry<T>>, indegree: map<T, nat>, taken: set<T>)
    requires Elems(ids) == indegree.Keys
  {
    && (forall i, j :: 0 <= i < j < |ready| ==> ready[i] != ready[j])
    && (forall e :: e in ready <==> IsEntry(ids, e) && e.node !in taken && indegree[e.node] == 0)
  }

  predicate IsEntry<T(==)>(ids: seq<T>, e: Entry<T>) {
    e.position < |ids| && ids[e.position] == e.node
  }

  lemma CountZero<T(!new)>(g: Graph<T>, indegree: map<T, nat>, taken: set<T>, n: T)
    requires Counts(g, indegree, taken) && n in g
    ensures indegree[n] == 0 <==> g[n] <= taken
  {
    if indegree[n] == 0 {
      assert g[n] - taken == {};
      assert forall d :: d in g[n] && d !in taken ==> d in g[n] - taken;
    }
    if g[n] <= taken {
      assert g[n] - taken == {};
    }
  }

  /** The head of the queue is the first ready node of the list. */
  lemma LeastIsFirstReady<T(!new)>(ids: seq<T>, g: Graph<T>, ready: seq<Entry<T>>, indegree: map<T, nat>,
                                   taken: set<T>, least: Entry<T>)
    requires Lists(ids, g) && Counts(g, indegree, taken) && QueueHolds(ids, ready, indegree, taken)
    requires least in ready && forall e :: e in ready ==> least.position <= e.position
    ensures FirstReady(ids, g, taken, 0) == least.position
  {
    CountZero(g, indegree, taken, least.node);
    FirstReadyIsLeast(ids, g, taken, least.position);
    var i := FirstReady(ids, g, taken, 0);
    CountZero(g, indegree, taken, ids[i]);
    assert Entry(i, ids[i]) in ready;
  }

  lemma EmptyQueueIsDone<T(!new)>(ids: seq<T>, g: Graph<T>, indegree: map<T, nat>, taken: set<T>)
    requires Lists(ids, g) && Counts(g, indegree, taken) && QueueHolds(ids, [], indegree, taken)
    ensures FirstReady(ids, g, taken, 0) == |ids|
  {
    var i := FirstReady(ids, g, taken, 0);
    if i < |ids| {
      CountZero(g, indegree, taken, ids[i]);
      assert IsEntry(ids, Entry(i, ids[i]));
    }
  }

  lemma TakeOne<T(!new)>(deps: set<T>, taken: set<T>, n: T)
    requires n !in taken
    ensures |deps - taken| == |deps - (taken + {n})| + (if n in deps then 1 else 0)
  {
    if n in deps {
      assert deps - taken == (deps - (taken + {n})) + {n};
    } else {
      assert deps - taken == deps - (taken + {n});
    }
  }

  /** Counters midway: the first `t` downstream nodes of `n` are already decremented. */
  ghost predicate Midway<T(!new)>(g: Graph<T>, indegree: map<T, nat>, taken: set<T>, done: set<T>) {
    && indegree.Keys == g.Keys
    && forall m :: m in g ==> indegree[m] == |g[m] - taken| - (if m in done then 1 else 0)
  }

  ghost predicate TakenClosed<T(!new)>(g: Graph<T>, taken: set<T>) {
    taken <= g.Keys && forall m :: m in taken ==> g[m] <= taken
  }

  lemma DecrementCounter<T(!new)>(g: Graph<T>, indegree: map<T, nat>, taken: set<T>, done: set<T>, m: T)
    requires Midway(g, indegree, taken, done)
    requires m in g && m !in done && indegree[m] > 0
    ensures Midway(g, indegree[m := indegree[m] - 1], taken, done + {m})
  {
  }

  lemma DecrementQueue<T(!new)>(ids: seq<T>, ready: seq<Entry<T>>, indegree: map<T, nat>, taken: set<T>, m: T, p: nat)
    requires Distinct(ids) && Elems(ids) == indegree.Keys && QueueHolds(ids, ready, indegree, taken)
    requires m in indegree && indegree[m] > 0 && m !in taken && IsEntry(ids, Entry(p, m))
    ensures QueueHolds(ids, if indegree[m] == 1 then ready + [Entry(p, m)] else ready,
                       indegree[m := indegree[m] - 1], taken)
  {
    var next := indegree[m := indegree[m] - 1];
    var queue := if indegree[m] == 1 then ready + [Entry(p, m)] else ready;
    assert Entry(p, m) !in ready;
    forall e ensures e in queue <==> IsEntry(ids, e) && e.node !in taken && next[e.node] == 0 {
      if IsEntry(ids, e) && e.node == m {
        assert e == Entry(p, m);
      }
    }
  }

  lemma ReleasedCounts<T(!new)>(g: Graph<T>, indegree: map<T, nat>, taken: set<T>, done: set<T>, n: T)
    requires Midway(g, indegree, taken, done) && n !in taken
    requires forall m :: m in done <==> m in g && n in g[m]
    ensures Counts(g, indegree, taken + {n})
  {
    forall m | m in g ensures indegree[m] == |g[m] - (taken + {n})| {
      TakeOne(g[m], taken, n);
    }
  }

  lemma AscendingIsDistinct<T(!new)>(s: seq<T>, key: T -> nat)
    requires AscendingBy(s, key)
    ensures Distinct(s)
  {
  }

  lemma NotTakenYet<T(!new)>(g: Graph<T>, indegree: map<T, nat>, taken: set<T>, done: set<T>, n: T, m: T)
    requires Midway(g, indegree, taken, done) && TakenClosed(g, taken)
    requires n in g && n !in taken && g[n] <= taken
    requires m in g && n in g[m] && m !in done
    ensures m !in taken + {n} && indegree[m] > 0
  {
    assert n in g[m] - taken;
  }

  lemma RanksInjective<T(!new)>(ids: seq<T>)
    requires Distinct(ids)
    ensures forall m, n :: m in Ranks(ids) && n in Ranks(ids) && m != n ==> Ranks(ids)[m] != Ranks(ids)[n]
  {
    forall m, n | m in Ranks(ids) && n in Ranks(ids) && m != n ensures Ranks(ids)[m] != Ranks(ids)[n] {
      var i :| 0 <= i < |ids| && ids[i] == m;
      var j :| 0 <= j < |ids| && ids[j] == n;
    }
  }

  /** The nodes of an adjacency list, by listed position. */
  method Downstream<T(==, !new)>(adjacent: seq<T>, position: map<T, nat>) returns (r: seq<T>)
    requires Distinct(adjacent) && Elems(adjacent) <= position.Keys
    requires forall m, n :: m in position && n in position && m != n ==> position[m] != position[n]
    ensures Distinct(r) && Elems(r) == Elems(adjacent)
  {
    var key := m => if m in position then position[m] else 0;
    assert forall i :: 0 <= i < |adjacent| ==> adjacent[i] in Elems(adjacent);
    r := SortBy(adjacent, key);
    AscendingIsDistinct(r, key);
  }

  /** Decrements one counter and queues the node when it reaches zero. */
  method Decrement<T(==, !new)>(ids: seq<T>, position: map<T, nat>, ready0: seq<Entry<T>>,
                                indegree0: map<T, nat>, ghost taken: set<T>, m: T)
    returns (ready: seq<Entry<T>>, indegree: map<T, nat>)
    requires Distinct(ids) && Elems(ids) == indegree0.Keys && QueueHolds(ids, ready0, indegree0, taken)
    requires m in indegree0 && indegree0[m] > 0 && m !in taken
    requires m in position && IsEntry(ids, Entry(position[m], m))
    ensures indegree == indegree0[m := indegree0[m] - 1]
    ensures QueueHolds(ids, ready, indegree, taken)
  {
    DecrementQueue(ids, ready0, indegree0, taken, m, position[m]);
    ready, indegree := ready0, indegree0[m := indegree0[m] - 1];
    if indegree[m] == 0 {
      ready := ready + [Entry(position[m], m)];
    }
  }

  lemma TakeElems<T(!new)>(s: seq<T>, t: nat)
    requires t < |s|
    ensures Elems(s[..t + 1]) == Elems(s[..t]) + {s[t]}
    ensures Distinct(s) ==> s[t] !in Elems(s[..t])
  {
  }

  /** What holds after the counters of `done` have been decremented. */
  ghost predicate Releasing<T(!new)>(ids: seq<T>, g: Graph<T>, ready: seq<Entry<T>>, indegree: map<T, nat>,
                                     taken: set<T>, done: set<T>, n: T)
    requires Lists(ids, g)
  {
    && Midway(g, indegree, taken, done)
    && QueueHolds(ids, ready, indegree, taken + {n})
  }

  /** Decrements one node downstream of `n`. */
  method ReleaseOne<T(==, !new)>(ids: seq<T>, ghost g: Graph<T>, position: map<T, nat>, ready0: seq<Entry<T>>,
                                 indegree0: map<T, nat>, ghost taken: set<T>, ghost done: set<T>, n: T, m: T)
    returns (ready: seq<Entry<T>>, indegree: map<T, nat>)
    requires Lists(ids, g) && position == Ranks(ids)
    requires n in g && n !in taken && g[n] <= taken && TakenClosed(g, taken)
    requires m in g && n in g[m] && m !in done
    requires Releasing(ids, g, ready0, indegree0, taken, done, n)
    ensures Releasing(ids, g, ready, indegree, taken, done + {m}, n)
  {
    NotTakenYet(g, indegree0, taken, done, n, m);
    DecrementCounter(g, indegree0, taken, done, m);
    assert m in Elems(ids);
    ready, indegree := Decrement(ids, position, ready0, indegree0, taken + {n}, m);
  }

  /** Decrements every node downstream of `n` and queues those whose counter reaches zero. */
  method Release<T(==, !new)>(ids: seq<T>, ghost g: Graph<T>, position: map<T, nat>, downstream: seq<T>,
                              ready0: seq<Entry<T>>, indegree0: map<T, nat>, ghost taken: set<T>, n: T)
    returns (ready: seq<Entry<T>>, indegree: map<T, nat>)
    requires Lists(ids, g) && position == Ranks(ids)
    requires n in g && n !in taken && g[n] <= taken && TakenClosed(g, taken)
    requires Distinct(downstream) && forall m :: m in downstream ==> m in g && n in g[m]
    requires Releasing(ids, g, ready0, indegree0, taken, {}, n)
    ensures Releasing(ids, g, ready, indegree, taken, Elems(downstream), n)
  {
    hide Releasing, TakenClosed;
    ready, indegree := ready0, indegree0;
    var t := 0;
    assert Elems(downstream[..t]) == {};
    while t < |downstream|
      invariant t <= |downstream|
      invariant Releasing(ids, g, ready, indegree, taken, Elems(downstream[..t]), n)
    {
      TakeElems(downstream, t);
      ready, indegree := ReleaseOne(ids, g, position, ready, indegree, taken, Elems(downstream[..t]), n, downstream[t]);
      t := t + 1;
    }
    assert downstream[..t] == downstream;
  }

  method InitialQueue<T(==, !new)>(ids: seq<T>, indegree: map<T, nat>) returns (ready: seq<Entry<T>>)
    requires Elems(ids) == indegree.Keys
    ensures QueueHolds(ids, ready, indegree, {})
  {
    ready := [];
    for i := 0 to |ids|
      invariant forall a, b :: 0 <= a < b < |ready| ==> ready[a] != ready[b]
      invariant forall e :: e in ready <==> IsEntry(ids, e) && e.position < i && indegree[e.node] == 0
    {
      assert ids[i] in Elems(ids);
      if indegree[ids[i]] == 0 {
        ready := ready + [Entry(i, ids[i])];
      }
    }
  }

  lemma InitialCounts<T(!new)>(g: Graph<T>, indegree: map<T, nat>, adjacency: map<T, seq<T>>)
    requires Describes(g, indegree, adjacency)
    ensures Counts(g, indegree, {})
  {
    forall n | n in g ensures indegree[n] == |g[n] - {}| {
      assert g[n] - {} == g[n];
    }
  }

  lemma RestOfQueue<T(!new)>(ids: seq<T>, ready: seq<Entry<T>>, rest: seq<Entry<T>>, indegree: map<T, nat>,
                             taken: set<T>, least: Entry<T>)
    requires Distinct(ids) && Elems(ids) == indegree.Keys && QueueHolds(ids, ready, indegree, taken)
    requires least in ready
    requires forall i, j :: 0 <= i < j < |rest| ==> rest[i] != rest[j]
    requires forall e :: e in rest <==> e in ready && e != least
    ensures QueueHolds(ids, rest, indegree, taken + {least.node})
  {
  }

  lemma TakeStep<T(!new)>(ids: seq<T>, g: Graph<T>, taken: seq<T>, i: nat)
    requires Lists(ids, g) && Distinct(taken) && TakenClosed(g, Elems(taken))
    requires i < |ids| && FirstReady(ids, g, Elems(taken), 0) == i
    ensures OrderFrom(ids, g, taken) == OrderFrom(ids, g, taken + [ids[i]])
    ensures Distinct(taken + [ids[i]])
    ensures Elems(taken + [ids[i]]) == Elems(taken) + {ids[i]}
    ensures TakenClosed(g, Elems(taken + [ids[i]]))
    ensures ids[i] !in Elems(taken) && g[ids[i]] <= Elems(taken)
  {
  }

  /** The state between two turns of the sorting loop. */
  ghost predicate TurnState<T(!new)>(ids: seq<T>, g: Graph<T>, ordered: seq<T>, ready: seq<Entry<T>>,
                                   indegree: map<T, nat>)
    requires Lists(ids, g)
  {
    && Distinct(ordered)
    && TakenClosed(g, Elems(ordered))
    && OrderFrom(ids, g, ordered) == Order(ids, g)
    && Counts(g, indegree, Elems(ordered))
    && QueueHolds(ids, ready, indegree, Elems(ordered))
  }

  /** One turn: takes the least ready node and releases the nodes that waited for it. */
  method TakeLeast<T(==, !new)>(ids: seq<T>, ghost g: Graph<T>, position: map<T, nat>, adjacency: map<T, seq<T>>,
                                ghost ordered: seq<T>, ready0: seq<Entry<T>>, indegree0: map<T, nat>)
    returns (current: T, ready: seq<Entry<T>>, indegree: map<T, nat>)
    requires Lists(ids, g) && position == Ranks(ids) && adjacency.Keys == g.Keys
    requires forall d :: d in g ==> DownstreamOf(g, adjacency[d], d)
    requires ready0 != [] && TurnState(ids, g, ordered, ready0, indegree0)
    ensures current in g.Keys - Elems(ordered)
    ensures TurnState(ids, g, ordered + [current], ready, indegree)
  {
    hide Order, OrderFrom, FirstReady, Counts, Midway, QueueHolds, Releasing;
    ghost var taken := Elems(ordered);
    QueueEntries(ids, g, ready0, indegree0, taken);
    var least, rest := PopLeast(ready0);
    LeastIsFirstReady(ids, g, ready0, indegree0, taken, least);
    TakeStep(ids, g, ordered, least.position);
    BeginRelease(ids, g, ready0, rest, indegree0, taken, least);
    current := least.node;
    RanksInjective(ids);
    var downstream := Downstream(adjacency[current], position);
    assert forall m :: m in Elems(downstream) <==> m in adjacency[current];
    ready, indegree := Release(ids, g, position, downstream, rest, indegree0, taken, current);
    EndRelease(ids, g, ready, indegree, taken, Elems(downstream), current);
  }

  lemma QueueEntries<T(!new)>(ids: seq<T>, g: Graph<T>, ready: seq<Entry<T>>, indegree: map<T, nat>, taken: set<T>)
    requires Lists(ids, g) && Counts(g, indegree, taken) && QueueHolds(ids, ready, indegree, taken)
    ensures forall i, j :: 0 <= i < j < |ready| ==> ready[i] != ready[j]
    ensures forall e :: e in ready ==> IsEntry(ids, e)
  {
  }

  lemma BeginRelease<T(!new)>(ids: seq<T>, g: Graph<T>, ready: seq<Entry<T>>, rest: seq<Entry<T>>,
                              indegree: map<T, nat>, taken: set<T>, least: Entry<T>)
    requires Lists(ids, g) && Counts(g, indegree, taken) && QueueHolds(ids, ready, indegree, taken)
    requires least in ready
    requires forall i, j :: 0 <= i < j < |rest| ==> rest[i] != rest[j]
    requires forall e :: e in rest <==> e in ready && e != least
    ensures Releasing(ids, g, rest, indegree, taken, {}, least.node)
  {
    RestOfQueue(ids, ready, rest, indegree, taken, least);
  }

  lemma EndRelease<T(!new)>(ids: seq<T>, g: Graph<T>, ready: seq<Entry<T>>, indegree: map<T, nat>,
                            taken: set<T>, done: set<T>, n: T)
    requires Lists(ids, g) && Releasing(ids, g, ready, indegree, taken, done, n) && n !in taken
    requires forall m :: m in done <==> m in g && n in g[m]
    ensures indegree.Keys == g.Keys
    ensures Counts(g, indegree, taken + {n}) && QueueHolds(ids, ready, indegree, taken + {n})
  {
    ReleasedCounts(g, indegree, taken, done, n);
  }

  lemma AppendElems<T(!new)>(s: seq<T>, x: T)
    ensures Elems(s + [x]) == Elems(s) + {x}
  {
  }

  /** Kahn's algorithm with a priority queue. */
  method TopologicalOrder<T(==, !new)>(ids: seq<T>, ghost g: Graph<T>, indegree0: map<T, nat>, adjacency: map<T,
                              seq<T>>)
    returns (ordered: seq<T>)
    requires Lists(ids, g) && Describes(g, indegree0, adjacency)
    ensures ordered == Order(ids, g)
  {
    hide TurnState, Order;
    var position := Ranks(ids);
    var indegree := indegree0;
    var ready := InitialQueue(ids, indegree);
    FirstTurn(ids, g, ready, indegree, adjacency);
    ordered := [];
    while ready != []
      invariant TurnState(ids, g, ordered, ready, indegree)
      decreases g.Keys - Elems(ordered)
    {
      var current;
      current, ready, indegree := TakeLeast(ids, g, position, adjacency, ordered, ready, indegree);
      AppendElems(ordered, current);
      ordered := ordered + [current];
    }
    LastTurn(ids, g, ordered, indegree);
  }

  lemma FirstTurn<T(!new)>(ids: seq<T>, g: Graph<T>, ready: seq<Entry<T>>, indegree: map<T, nat>,
                           adjacency: map<T, seq<T>>)
    requires Lists(ids, g) && Describes(g, indegree, adjacency) && QueueHolds(ids, ready, indegree, {})
    ensures TurnState(ids, g, [], ready, indegree)
  {
    InitialCounts(g, indegree, adjacency);
    assert Elems<T>([]) == {};
  }

  lemma LastTurn<T(!new)>(ids: seq<T>, g: Graph<T>, ordered: seq<T>, indegree: map<T, nat>)
    requires Lists(ids, g) && TurnState(ids, g, ordered, [], indegree)
    ensures ordered == Order(ids, g)
  {
    EmptyQueueIsDone(ids, g, indegree, Elems(ordered));
  }
}
