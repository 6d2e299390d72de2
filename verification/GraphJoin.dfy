/**
 Joining a graph of injected nodes to a plan graph: when the result stays closed and acyclic, and
 for whom the originating node then waits.
 */
module GraphJoin {
  import opened Dag

  /** The plan graph with `origId` also depending on `terminals`, joined with the injected graph. */
  ghost function Joined<T(!new)>(g: Graph<T>, h: Graph<T>, origId: T, terminals: set<T>): Graph<T>
    requires origId in g
  {
    g[origId := g[origId] + terminals] + h
  }

  ghost predicate IsTerminal<T(!new)>(h: Graph<T>, t: T) {
    t in h && forall m :: m in h ==> t !in h[m]
  }

  ghost function Terminals<T(!new)>(h: Graph<T>): set<T> {
    set t | t in h && IsTerminal(h, t)
  }

  /** Injected dependencies stay inside, or name nodes that do not wait for the originator. */
  ghost predicate SafeEdges<T(!new)>(g: Graph<T>, h: Graph<T>, origId: T) {
    forall n, d :: n in h && d in h[n] ==> d in h || (d in g && !Reaches(g, d, origId))
  }

  ghost function Inner<T(!new)>(h: Graph<T>): (r: Graph<T>)
    ensures r.Keys == h.Keys && Closed(r)
    ensures forall n :: n in h ==> r[n] <= h[n]
  {
    map n | n in h :: h[n] * h.Keys
  }

  lemma InnerAcyclic<T(!new)>(h: Graph<T>)
    requires Acyclic(h)
    ensures Acyclic(Inner(h))
  {
    forall n | DependsOn(Inner(h), n, n) ensures DependsOn(h, n, n) {
      DependsMonotone(Inner(h), h, n, n);
    }
  }

  lemma DependsMonotone<T(!new)>(g: Graph<T>, h: Graph<T>, a: T, b: T)
    requires DependsOn(g, a, b)
    requires forall n :: n in g ==> n in h && g[n] <= h[n]
    ensures DependsOn(h, a, b)
  {
    var p :| Connects(g, p, a, b) && |p| > 1;
    PathMonotone(g, h, p);
    assert Connects(h, p, a, b);
  }

  lemma {:induction false} RankBound<T(!new)>(keys: set<T>, rank: map<T, nat>) returns (b: nat)
    requires keys <= rank.Keys
    ensures forall n :: n in keys ==> rank[n] < b
  {
    if keys == {} {
      b := 0;
    } else {
      var x :| x in keys;
      b := RankBound(keys - {x}, rank);
      b := if rank[x] < b then b else rank[x] + 1;
    }
  }

  /** First what does not wait for the originator, then the injected nodes, then the rest. */
  ghost function JoinedRank<T(!new)>(g: Graph<T>, h: Graph<T>, origId: T, rankG: map<T, nat>, rankH: map<T, nat>,
                                     b: nat, c: nat, n: T): nat
    requires g.Keys <= rankG.Keys && h.Keys <= rankH.Keys && n in g.Keys + h.Keys
  {
    if n in h then b + rankH[n]
    else if Reaches(g, n, origId) then b + c + rankG[n]
    else rankG[n]
  }

  lemma InjectedEdgeDrops<T(!new)>(g: Graph<T>, h: Graph<T>, origId: T, rankG: map<T, nat>, rankH: map<T, nat>,
                                   b: nat, c: nat, n: T, d: T)
    requires Ranked(g, rankG) && Ranked(Inner(h), rankH) && g.Keys !! h.Keys && SafeEdges(g, h, origId)
    requires forall m :: m in g ==> rankG[m] < b
    requires n in h && d in h[n]
    ensures d in g.Keys + h.Keys
    ensures JoinedRank(g, h, origId, rankG, rankH, b, c, d) < JoinedRank(g, h, origId, rankG, rankH, b, c, n)
  {
    if d in h {
      assert d in Inner(h)[n];
    }
  }

  lemma PlanEdgeDrops<T(!new)>(g: Graph<T>, h: Graph<T>, origId: T, rankG: map<T, nat>, rankH: map<T, nat>,
                               b: nat, c: nat, n: T, d: T)
    requires Ranked(g, rankG) && h.Keys <= rankH.Keys && g.Keys !! h.Keys && Closed(g)
    requires forall m :: m in h ==> rankH[m] < c
    requires n in g && (d in g[n] || (n == origId && d in h))
    ensures d in g.Keys + h.Keys
    ensures JoinedRank(g, h, origId, rankG, rankH, b, c, d) < JoinedRank(g, h, origId, rankG, rankH, b, c, n)
  {
    if d in g[n] {
      ReachesThrough(g, n, d, origId);
    } else {
      SelfReaches(g, origId);
    }
  }

  lemma JoinedRanked<T(!new)>(g: Graph<T>, h: Graph<T>, origId: T, rankG: map<T, nat>, rankH: map<T, nat>)
    returns (rank: map<T, nat>)
    requires origId in g && g.Keys !! h.Keys && Closed(g)
    requires Ranked(g, rankG) && Ranked(Inner(h), rankH) && SafeEdges(g, h, origId)
    ensures Ranked(Joined(g, h, origId, Terminals(h)), rank)
  {
    hide JoinedRank, SafeEdges, Closed, Inner, Reaches;
    var b := RankBound(g.Keys, rankG);
    var c := RankBound(h.Keys, rankH);
    var f := Joined(g, h, origId, Terminals(h));
    rank := map n | n in g.Keys + h.Keys :: JoinedRank(g, h, origId, rankG, rankH, b, c, n);
    forall n, d | n in f && d in f[n] ensures d in rank && rank[d] < rank[n] {
      if n in h {
        InjectedEdgeDrops(g, h, origId, rankG, rankH, b, c, n, d);
      } else {
        PlanEdgeDrops(g, h, origId, rankG, rankH, b, c, n, d);
      }
    }
  }

  lemma ReachesThrough<T(!new)>(g: Graph<T>, n: T, d: T, target: T)
    requires n in g && Closed(g) && d in g[n]
    ensures d in g
    ensures Reaches(g, d, target) ==> Reaches(g, n, target)
  {
    EdgeReaches(g, n, d);
    if Reaches(g, d, target) {
      var p :| Connects(g, p, n, d) && |p| > 1;
      assert Reaches(g, n, d);
      ReachesTransitive(g, n, d, target);
    }
  }

  /** The originator transitively waits for every injected node, not just the terminals. */
  lemma {:induction false} OriginatorWaits<T(!new)>(g: Graph<T>, h: Graph<T>, origId: T,
                                           rankH: map<T, nat>, bound: nat, n: T)
    requires origId in g && g.Keys !! h.Keys && n in h
    requires Ranked(Inner(h), rankH) && forall m :: m in h ==> rankH[m] < bound
    ensures DependsOn(Joined(g, h, origId, Terminals(h)), origId, n)
    decreases bound - rankH[n]
  {
    var f := Joined(g, h, origId, Terminals(h));
    if IsTerminal(h, n) {
      EdgeReaches(f, origId, n);
    } else {
      var m :| m in h && n in h[m];
      assert n in Inner(h)[m];
      OriginatorWaits(g, h, origId, rankH, bound, m);
      EdgeReaches(f, m, n);
      DependsIsReaches(f, origId, m);
      DependsIsReaches(f, m, n);
      ReachesTransitive(f, origId, m, n);
    }
  }

  lemma DependsIsReaches<T(!new)>(g: Graph<T>, a: T, b: T)
    requires DependsOn(g, a, b)
    ensures Reaches(g, a, b)
  {
  }

  /** In a closed acyclic result, the injected edges were safe. */
  lemma JoinedOnlyIfSafe<T(!new)>(g: Graph<T>, h: Graph<T>, origId: T)
    requires origId in g && g.Keys !! h.Keys && Closed(g)
    requires Closed(Joined(g, h, origId, Terminals(h))) && Acyclic(Joined(g, h, origId, Terminals(h)))
    ensures Acyclic(h) && SafeEdges(g, h, origId)
  {
    var f := Joined(g, h, origId, Terminals(h));
    forall n | DependsOn(h, n, n) ensures false {
      DependsMonotone(h, f, n, n);
    }
    InnerAcyclic(h);
    AcyclicIffRanked(Inner(h));
    var rankH :| Ranked(Inner(h), rankH);
    var bound := RankBound(h.Keys, rankH);
    forall n, d | n in h && d in h[n] ensures d in h || (d in g && !Reaches(g, d, origId)) {
      assert f[n] == h[n];
      if d in g && Reaches(g, d, origId) {
        ReachesMonotone(g, f, d, origId);
        OriginatorWaits(g, h, origId, rankH, bound, n);
        CycleThrough(f, origId, n, d);
      }
    }
  }

  lemma CycleThrough<T(!new)>(f: Graph<T>, a: T, n: T, d: T)
    requires DependsOn(f, a, n) && n in f && d in f && d in f[n] && Reaches(f, d, a)
    ensures !Acyclic(f)
  {
    EdgeReaches(f, n, d);
    DependsIsReaches(f, a, n);
    DependsIsReaches(f, n, d);
    ReachesTransitive(f, a, n, d);
    ReachesTransitive(f, a, d, a);
  }

  lemma JoinedClosed<T(!new)>(g: Graph<T>, h: Graph<T>, origId: T)
    requires origId in g && Closed(g) && SafeEdges(g, h, origId)
    ensures Closed(Joined(g, h, origId, Terminals(h)))
  {
  }

  lemma JoinedIfSafe<T(!new)>(g: Graph<T>, h: Graph<T>, origId: T)
    requires origId in g && g.Keys !! h.Keys && Closed(g) && Acyclic(g)
    requires Acyclic(h) && SafeEdges(g, h, origId)
    ensures Closed(Joined(g, h, origId, Terminals(h))) && Acyclic(Joined(g, h, origId, Terminals(h)))
  {
    hide Acyclic, Joined, SafeEdges, Terminals, Inner;
    JoinedClosed(g, h, origId);
    InnerAcyclic(h);
    AcyclicIffRanked(g);
    AcyclicIffRanked(Inner(h));
    var rankG :| Ranked(g, rankG);
    var rankH :| Ranked(Inner(h), rankH);
    var rank := JoinedRanked(g, h, origId, rankG, rankH);
    RankedIsAcyclic(Joined(g, h, origId, Terminals(h)), rank);
  }
}
