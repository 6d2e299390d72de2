/** What injection does to a plan: fresh ids, an exact safety condition, and the new waiting order. */
module InjectionTheorems {
  import opened Dag
  import opened Models
  import opened Injection
  import opened GraphJoin

  // ---- ids of the injected nodes ----

  lemma {:induction false} IdMapAt(subs: seq<PlanNode>, ids: seq<string>, i: nat)
    requires |subs| == |ids| && DistinctIds(subs) && i < |subs|
    ensures IdMap(subs, ids)[subs[i].id] == ids[i]
  {
    var k := |subs| - 1;
    assert forall j :: 0 <= j < k ==> subs[..k][j] == subs[j];
    if i < k {
      IdMapAt(subs[..k], ids[..k], i);
    }
  }

  lemma RemappedIdAt(existing: set<string>, origId: string, subs: seq<PlanNode>, i: nat)
    requires i < |subs|
    ensures Remapped(existing, origId, subs)[i].id in Elems(FreshIds(existing, origId, |subs|))
    ensures DistinctIds(subs) ==> Remapped(existing, origId, subs)[i].id == FreshIds(existing, origId, |subs|)[i]
    ensures Remapped(existing, origId, subs)[i].id
         == Resolve(IdMap(subs, FreshIds(existing, origId, |subs|)), subs[i].id)
  {
    assert subs[i].id in Ids(subs);
    if DistinctIds(subs) {
      IdMapAt(subs, FreshIds(existing, origId, |subs|), i);
    }
  }

  lemma RemappedIds(existing: set<string>, origId: string, subs: seq<PlanNode>)
    ensures Ids(Remapped(existing, origId, subs)) !! existing
    ensures DistinctIds(subs) <==> DistinctIds(Remapped(existing, origId, subs))
  {
    hide FreshIds, Resolve, RemapNode;
    var r := Remapped(existing, origId, subs);
    forall i | 0 <= i < |r| ensures r[i].id !in existing {
      RemappedIdAt(existing, origId, subs, i);
    }
    if DistinctIds(subs) {
      forall i, j | 0 <= i < j < |r| ensures r[i].id != r[j].id {
        RemappedIdAt(existing, origId, subs, i);
        RemappedIdAt(existing, origId, subs, j);
      }
    } else {
      var i, j :| 0 <= i < j < |subs| && subs[i].id == subs[j].id;
      RemappedIdAt(existing, origId, subs, i);
      RemappedIdAt(existing, origId, subs, j);
    }
  }

  // ---- the graph after injection ----

  ghost function InjectedGraph(nodes: seq<PlanNode>, origId: string, subs: seq<PlanNode>): Graph<string> {
    PlanGraph(Remapped(Ids(nodes), origId, subs))
  }

  /**
   After a non-empty injection with distinct sub-node ids, ids stay distinct, every node but the
   originator is as before, and the originator is reset and waits for the injected terminals too.
   */
  lemma InjectedMap(nodes: seq<PlanNode>, origId: string, subs: seq<PlanNode>)
    requires DistinctIds(nodes) && origId in Ids(nodes) && DistinctIds(subs) && subs != []
    ensures var after, injected := Inject(nodes, origId, subs), Remapped(Ids(nodes), origId, subs);
            && DistinctIds(after)
            && Ids(injected) !! Ids(nodes)
            && var orig := Rewired(NodeMap(nodes)[origId], TerminalIds(injected, AllDeps(injected)));
               NodeMap(after) == NodeMap(nodes)[origId := orig] + NodeMap(injected)
  {
    var injected := Remapped(Ids(nodes), origId, subs);
    RemappedIds(Ids(nodes), origId, subs);
    var orig := NodeMap(nodes)[origId];
    var rewired := Rewired(orig, TerminalIds(injected, AllDeps(injected)));
    assert rewired.id == origId;
    SetNodeMap(nodes, rewired);
    SetNodeDistinct(nodes, rewired);
    AppendMap(SetNode(nodes, rewired), injected);
    AppendDistinctIds(SetNode(nodes, rewired), injected);
  }

  lemma InjectedTerminals(injected: seq<PlanNode>)
    requires DistinctIds(injected)
    ensures Elems(TerminalIds(injected, AllDeps(injected))) == Terminals(PlanGraph(injected))
  {
    var h := PlanGraph(injected);
    forall t ensures t in TerminalIds(injected, AllDeps(injected)) <==> t in Terminals(h) {
      if t in h {
        DepsInGraph(injected, t);
      }
    }
  }

  lemma DepsInGraph(nodes: seq<PlanNode>, d: string)
    requires DistinctIds(nodes)
    ensures d in AllDeps(nodes) <==> exists m :: m in PlanGraph(nodes) && d in PlanGraph(nodes)[m]
  {
    if d in AllDeps(nodes) {
      var i :| 0 <= i < |nodes| && d in nodes[i].dependsOn;
      NodeMapAt(nodes, i);
      assert d in PlanGraph(nodes)[nodes[i].id];
    }
    if m :| m in PlanGraph(nodes) && d in PlanGraph(nodes)[m] {
      var i :| 0 <= i < |nodes| && nodes[i] == NodeMap(nodes)[m];
    }
  }

  lemma InjectedGraphIsJoined(nodes: seq<PlanNode>, origId: string, subs: seq<PlanNode>)
    requires DistinctIds(nodes) && origId in Ids(nodes) && DistinctIds(subs) && subs != []
    ensures var g, h := PlanGraph(nodes), InjectedGraph(nodes, origId, subs);
            && DistinctIds(Inject(nodes, origId, subs))
            && g.Keys !! h.Keys
            && PlanGraph(Inject(nodes, origId, subs)) == Joined(g, h, origId, Terminals(h))
  {
    hide Inject, Remapped, AllDeps, TerminalIds, Terminals, DistinctIds, Rewired, NodeMap, GraphOf, Elems;
    var injected := Remapped(Ids(nodes), origId, subs);
    InjectedDistinct(nodes, origId, subs);
    InjectedMap(nodes, origId, subs);
    InjectedTerminals(injected);
    RewiredGraph(nodes, injected, origId, TerminalIds(injected, AllDeps(injected)));
  }

  lemma RewiredGraph(nodes: seq<PlanNode>, injected: seq<PlanNode>, origId: string, terminals: seq<string>)
    requires origId in Ids(nodes)
    ensures origId in PlanGraph(nodes)
    ensures GraphOf(NodeMap(nodes)[origId := Rewired(NodeMap(nodes)[origId], terminals)] + NodeMap(injected))
         == PlanGraph(nodes)[origId := PlanGraph(nodes)[origId] + Elems(terminals)] + PlanGraph(injected)
  {
    hide AddDeps, NodeMap;
    var a := NodeMap(nodes)[origId := Rewired(NodeMap(nodes)[origId], terminals)];
    GraphOfUnion(a, NodeMap(injected));
    assert GraphOf(a) == PlanGraph(nodes)[origId := PlanGraph(nodes)[origId] + Elems(terminals)];
  }

  lemma GraphOfUnion(a: map<string, PlanNode>, b: map<string, PlanNode>)
    ensures GraphOf(a + b) == GraphOf(a) + GraphOf(b)
  {
  }

  lemma InjectedDistinct(nodes: seq<PlanNode>, origId: string, subs: seq<PlanNode>)
    requires DistinctIds(subs)
    ensures DistinctIds(Remapped(Ids(nodes), origId, subs))
    ensures PlanGraph(nodes).Keys !! InjectedGraph(nodes, origId, subs).Keys
  {
    RemappedIds(Ids(nodes), origId, subs);
  }

  // ---- exactly which injections keep a plan well formed ----

  /** Distinct sub-node ids, no cycle among the injected nodes, and only safe edges out of them. */
  ghost predicate SafeInjection(nodes: seq<PlanNode>, origId: string, subs: seq<PlanNode>) {
    && DistinctIds(subs)
    && Acyclic(InjectedGraph(nodes, origId, subs))
    && SafeEdges(PlanGraph(nodes), InjectedGraph(nodes, origId, subs), origId)
  }

  /** Injection keeps a plan well formed exactly when it is safe. */
  lemma InjectionKeepsPlanIffSafe(nodes: seq<PlanNode>, origId: string, subs: seq<PlanNode>)
    requires WellFormed(nodes) && origId in Ids(nodes) && subs != []
    ensures WellFormed(Inject(nodes, origId, subs)) <==> SafeInjection(nodes, origId, subs)
  {
    var g, h := PlanGraph(nodes), InjectedGraph(nodes, origId, subs);
    if !DistinctIds(subs) {
      RepeatedIdsSurvive(nodes, origId, subs);
    } else {
      InjectedGraphIsJoined(nodes, origId, subs);
      if WellFormed(Inject(nodes, origId, subs)) {
        JoinedOnlyIfSafe(g, h, origId);
      }
      if SafeInjection(nodes, origId, subs) {
        JoinedIfSafe(g, h, origId);
      }
    }
  }

  /** Repeated sub-node ids give the plan two nodes with one id. */
  lemma RepeatedIdsSurvive(nodes: seq<PlanNode>, origId: string, subs: seq<PlanNode>)
    requires origId in Ids(nodes) && subs != [] && !DistinctIds(subs)
    ensures !DistinctIds(Inject(nodes, origId, subs))
  {
    hide Remapped, TerminalIds, AllDeps, Rewired, SetNode;
    var injected := Remapped(Ids(nodes), origId, subs);
    RemappedIds(Ids(nodes), origId, subs);
    var after := Inject(nodes, origId, subs);
    var before := after[..|nodes|];
    assert after == before + injected;
    if DistinctIds(before + injected) {
      SuffixDistinct(before, injected);
    }
  }

  lemma SuffixDistinct(a: seq<PlanNode>, b: seq<PlanNode>)
    requires DistinctIds(a + b)
    ensures DistinctIds(b)
  {
    forall i, j | 0 <= i < j < |b| ensures b[i].id != b[j].id {
      assert (a + b)[|a| + i] == b[i] && (a + b)[|a| + j] == b[j];
    }
  }

  // ---- consequences of a safe injection ----

  /** When the injected nodes have no cycle, the originator transitively waits for every one of them. */
  lemma OriginatorWaitsForAll(nodes: seq<PlanNode>, origId: string, subs: seq<PlanNode>, n: string)
    requires DistinctIds(nodes) && origId in Ids(nodes) && subs != [] && DistinctIds(subs)
    requires Acyclic(InjectedGraph(nodes, origId, subs))
    requires n in Ids(Remapped(Ids(nodes), origId, subs))
    ensures DependsOn(PlanGraph(Inject(nodes, origId, subs)), origId, n)
  {
    hide Inject, Remapped, Acyclic, Joined, Terminals, Inner, DistinctIds;
    var g, h := PlanGraph(nodes), InjectedGraph(nodes, origId, subs);
    InjectedGraphIsJoined(nodes, origId, subs);
    InnerAcyclic(h);
    AcyclicIffRanked(Inner(h));
    var rankH :| Ranked(Inner(h), rankH);
    var bound := RankBound(h.Keys, rankH);
    OriginatorWaits(g, h, origId, rankH, bound, n);
  }

  // ---- the injected graph is the planned one under new names ----

  /** An edge between two injected nodes is exactly an edge between the sub-nodes they come from. */
  lemma InjectedEdges(nodes: seq<PlanNode>, origId: string, subs: seq<PlanNode>, i: nat, j: nat)
    requires DistinctIds(subs) && i < |subs| && j < |subs|
    requires Elems(subs[j].dependsOn) <= Ids(subs) + Ids(nodes)
    ensures var r := Remapped(Ids(nodes), origId, subs);
            r[i].id in r[j].dependsOn <==> subs[i].id in subs[j].dependsOn
  {
    hide FreshIds;
    var ids := FreshIds(Ids(nodes), origId, |subs|);
    var m := IdMap(subs, ids);
    var r := Remapped(Ids(nodes), origId, subs);
    RemappedIdAt(Ids(nodes), origId, subs, i);
    IdMapAt(subs, ids, i);
    if r[i].id in r[j].dependsOn {
      var k :| 0 <= k < |r[j].dependsOn| && r[j].dependsOn[k] == ids[i];
      var d := subs[j].dependsOn[k];
      assert d in Elems(subs[j].dependsOn);
      assert d in Ids(subs);
      var p :| 0 <= p < |subs| && subs[p].id == d;
      IdMapAt(subs, ids, p);
    }
    if subs[i].id in subs[j].dependsOn {
      var k :| 0 <= k < |subs[j].dependsOn| && subs[j].dependsOn[k] == subs[i].id;
      assert r[j].dependsOn[k] == ids[i];
    }
  }

  // ---- the safety condition, in terms of what the planner answered ----

  /** A dependency that is no sub-node names a node of the plan. */
  ghost predicate ForeignKnown(nodes: seq<PlanNode>, subs: seq<PlanNode>) {
    forall j :: 0 <= j < |subs| ==> Elems(subs[j].dependsOn) <= Ids(subs) + Ids(nodes)
  }

  /** A dependency that is no sub-node does not wait for the originator. */
  ghost predicate ForeignFree(nodes: seq<PlanNode>, origId: string, subs: seq<PlanNode>) {
    forall j, d :: 0 <= j < |subs| && d in subs[j].dependsOn && d !in Ids(subs) ==>
      !Reaches(PlanGraph(nodes), d, origId)
  }

  /** What a caller can check: distinct sub-node ids, no cycle among sub-nodes, outside only free nodes of the plan. */
  ghost predicate SafeAnswer(nodes: seq<PlanNode>, origId: string, subs: seq<PlanNode>) {
    && DistinctIds(subs) && Acyclic(PlanGraph(subs))
    && ForeignKnown(nodes, subs) && ForeignFree(nodes, origId, subs)
  }

  ghost function NewIds(nodes: seq<PlanNode>, origId: string, subs: seq<PlanNode>): map<string, string> {
    IdMap(subs, FreshIds(Ids(nodes), origId, |subs|))
  }

  /** Back from an injected id to its sub-node's. */
  ghost function OldIds(nodes: seq<PlanNode>, origId: string, subs: seq<PlanNode>): (m: map<string, string>)
    ensures m.Keys == Elems(FreshIds(Ids(nodes), origId, |subs|))
  {
    var ids := FreshIds(Ids(nodes), origId, |subs|);
    var place := Ranks(ids);
    map id | id in Elems(ids) :: subs[place[id]].id
  }

  lemma OldIdAt(nodes: seq<PlanNode>, origId: string, subs: seq<PlanNode>, i: nat)
    requires DistinctIds(subs) && i < |subs|
    ensures var new' := Remapped(Ids(nodes), origId, subs)[i].id;
            && subs[i].id in NewIds(nodes, origId, subs) && NewIds(nodes, origId, subs)[subs[i].id] == new'
            && new' in OldIds(nodes, origId, subs) && OldIds(nodes, origId, subs)[new'] == subs[i].id
  {
    hide FreshIds, IdMap;
    var ids := FreshIds(Ids(nodes), origId, |subs|);
    RemappedIdAt(Ids(nodes), origId, subs, i);
    IdMapAt(subs, ids, i);
    assert ids[i] in Elems(ids) && Ranks(ids)[ids[i]] == i;
  }

  lemma NodePlace(nodes: seq<PlanNode>, n: string) returns (i: nat)
    requires DistinctIds(nodes) && n in PlanGraph(nodes)
    ensures i < |nodes| && nodes[i].id == n && PlanGraph(nodes)[n] == Elems(nodes[i].dependsOn)
  {
    i :| 0 <= i < |nodes| && nodes[i] == NodeMap(nodes)[n];
  }

  lemma NewIdEdge(nodes: seq<PlanNode>, origId: string, subs: seq<PlanNode>, n: string, d: string)
    requires DistinctIds(subs) && ForeignKnown(nodes, subs)
    requires n in PlanGraph(subs) && d in PlanGraph(subs) && d in PlanGraph(subs)[n]
    ensures var f, h := NewIds(nodes, origId, subs), InjectedGraph(nodes, origId, subs);
            d in f && n in f && f[n] in h && f[d] in h[f[n]]
  {
    hide Remapped, NewIds, OldIds, PlanGraph, DistinctIds, ForeignKnown;
    var i := NodePlace(subs, d);
    var j := NodePlace(subs, n);
    OldIdAt(nodes, origId, subs, i);
    OldIdAt(nodes, origId, subs, j);
    EdgeBothWays(nodes, origId, subs, i, j);
  }

  lemma OldIdEdge(nodes: seq<PlanNode>, origId: string, subs: seq<PlanNode>, n: string, d: string)
    requires DistinctIds(subs) && ForeignKnown(nodes, subs)
    requires var h := InjectedGraph(nodes, origId, subs); n in h && d in h && d in h[n]
    ensures var f, g := OldIds(nodes, origId, subs), PlanGraph(subs);
            d in f && n in f && f[n] in g && f[d] in g[f[n]]
  {
    RemappedIds(Ids(nodes), origId, subs);
    hide Remapped, NewIds, OldIds, PlanGraph, DistinctIds, ForeignKnown;
    var i := NodePlace(Remapped(Ids(nodes), origId, subs), d);
    var j := NodePlace(Remapped(Ids(nodes), origId, subs), n);
    OldIdAt(nodes, origId, subs, i);
    OldIdAt(nodes, origId, subs, j);
    EdgeBothWays(nodes, origId, subs, i, j);
  }

  lemma NewIdNode(nodes: seq<PlanNode>, origId: string, subs: seq<PlanNode>, n: string)
    requires DistinctIds(subs) && n in PlanGraph(subs)
    ensures n in NewIds(nodes, origId, subs) && NewIds(nodes, origId, subs)[n] in InjectedGraph(nodes, origId, subs)
  {
    RemappedIds(Ids(nodes), origId, subs);
    hide Remapped, NewIds, OldIds, PlanGraph, DistinctIds;
    var i := NodePlace(subs, n);
    OldIdAt(nodes, origId, subs, i);
    InPlanGraph(Remapped(Ids(nodes), origId, subs), i);
  }

  lemma OldIdNode(nodes: seq<PlanNode>, origId: string, subs: seq<PlanNode>, n: string)
    requires DistinctIds(subs) && n in InjectedGraph(nodes, origId, subs)
    ensures n in OldIds(nodes, origId, subs) && OldIds(nodes, origId, subs)[n] in PlanGraph(subs)
  {
    RemappedIds(Ids(nodes), origId, subs);
    hide Remapped, NewIds, OldIds, PlanGraph, DistinctIds;
    var i := NodePlace(Remapped(Ids(nodes), origId, subs), n);
    OldIdAt(nodes, origId, subs, i);
    InPlanGraph(subs, i);
  }

  /** Renaming embeds the planned graph in the injected one. */
  lemma NewIdsEmbed(nodes: seq<PlanNode>, origId: string, subs: seq<PlanNode>)
    requires DistinctIds(subs) && ForeignKnown(nodes, subs)
    ensures Embeds(PlanGraph(subs), InjectedGraph(nodes, origId, subs), NewIds(nodes, origId, subs))
  {
    hide InjectedGraph, NewIds, PlanGraph, DistinctIds, ForeignKnown, Ids;
    var g, h, f := PlanGraph(subs), InjectedGraph(nodes, origId, subs), NewIds(nodes, origId, subs);
    forall n | n in g ensures n in f && f[n] in h {
      NewIdNode(nodes, origId, subs, n);
    }
    forall n, d | n in g && d in g && d in g[n] ensures f[d] in h[f[n]] {
      NewIdEdge(nodes, origId, subs, n, d);
    }
  }

  /** And going back embeds the injected graph in the planned one. */
  lemma OldIdsEmbed(nodes: seq<PlanNode>, origId: string, subs: seq<PlanNode>)
    requires DistinctIds(subs) && ForeignKnown(nodes, subs)
    ensures Embeds(InjectedGraph(nodes, origId, subs), PlanGraph(subs), OldIds(nodes, origId, subs))
  {
    hide InjectedGraph, OldIds, PlanGraph, DistinctIds, ForeignKnown, Ids;
    var g, h, f := PlanGraph(subs), InjectedGraph(nodes, origId, subs), OldIds(nodes, origId, subs);
    forall n | n in h ensures n in f && f[n] in g {
      OldIdNode(nodes, origId, subs, n);
    }
    forall n, d | n in h && d in h && d in h[n] ensures f[d] in g[f[n]] {
      OldIdEdge(nodes, origId, subs, n, d);
    }
  }

  lemma InPlanGraph(nodes: seq<PlanNode>, i: nat)
    requires DistinctIds(nodes) && i < |nodes|
    ensures nodes[i].id in PlanGraph(nodes) && PlanGraph(nodes)[nodes[i].id] == Elems(nodes[i].dependsOn)
  {
    NodeMapAt(nodes, i);
  }

  lemma EdgeBothWays(nodes: seq<PlanNode>, origId: string, subs: seq<PlanNode>, i: nat, j: nat)
    requires DistinctIds(subs) && ForeignKnown(nodes, subs) && i < |subs| && j < |subs|
    ensures var r := Remapped(Ids(nodes), origId, subs);
            && NewIds(nodes, origId, subs)[subs[i].id] == r[i].id && NewIds(nodes, origId, subs)[subs[j].id] == r[j].id
            && OldIds(nodes, origId, subs)[r[i].id] == subs[i].id && OldIds(nodes, origId, subs)[r[j].id] == subs[j].id
            && subs[j].id in PlanGraph(subs) && r[j].id in PlanGraph(r)
            && (r[i].id in PlanGraph(r)[r[j].id] <==> subs[i].id in PlanGraph(subs)[subs[j].id])
  {
    RemappedIds(Ids(nodes), origId, subs);
    hide Remapped, NewIds, OldIds, PlanGraph, DistinctIds;
    OldIdAt(nodes, origId, subs, i);
    OldIdAt(nodes, origId, subs, j);
    InPlanGraph(subs, j);
    InPlanGraph(Remapped(Ids(nodes), origId, subs), j);
    InjectedEdges(nodes, origId, subs, i, j);
  }

  lemma FreeEdge(nodes: seq<PlanNode>, origId: string, subs: seq<PlanNode>, n: string, d: string)
    requires DistinctIds(subs) && ForeignKnown(nodes, subs) && ForeignFree(nodes, origId, subs)
    requires n in InjectedGraph(nodes, origId, subs) && d in InjectedGraph(nodes, origId, subs)[n]
    ensures d in InjectedGraph(nodes, origId, subs) || (d in PlanGraph(nodes) && !Reaches(PlanGraph(nodes), d, origId))
  {
    RemappedIds(Ids(nodes), origId, subs);
    PlanGraphKeys(nodes);
    PlanGraphKeys(Remapped(Ids(nodes), origId, subs));
    hide Remapped, PlanGraph, DistinctIds, Reaches, ForeignKnown, Ids;
    var j := NodePlace(Remapped(Ids(nodes), origId, subs), n);
    RemappedDep(nodes, origId, subs, j, d);
  }

  lemma SafeEdgeIsFree(nodes: seq<PlanNode>, origId: string, subs: seq<PlanNode>, j: nat, d: string)
    requires DistinctIds(subs) && ForeignKnown(nodes, subs)
    requires SafeEdges(PlanGraph(nodes), InjectedGraph(nodes, origId, subs), origId)
    requires j < |subs| && d in subs[j].dependsOn && d !in Ids(subs)
    ensures !Reaches(PlanGraph(nodes), d, origId)
  {
    var r := Remapped(Ids(nodes), origId, subs);
    RemappedIds(Ids(nodes), origId, subs);
    PlanGraphKeys(r);
    hide Remapped, PlanGraph, DistinctIds, Reaches, ForeignKnown, Ids;
    InPlanGraph(r, j);
    ForeignDep(nodes, origId, subs, j, d);
    assert d in PlanGraph(r)[r[j].id];
  }

  /** Edges that leave the injected nodes are the sub-nodes' foreign dependencies. */
  lemma EdgesSafeIffFree(nodes: seq<PlanNode>, origId: string, subs: seq<PlanNode>)
    requires DistinctIds(subs) && ForeignKnown(nodes, subs)
    ensures SafeEdges(PlanGraph(nodes), InjectedGraph(nodes, origId, subs), origId) <==>
      ForeignFree(nodes, origId, subs)
  {
    hide InjectedGraph, PlanGraph, DistinctIds, Reaches, ForeignKnown, Ids;
    var g, h := PlanGraph(nodes), InjectedGraph(nodes, origId, subs);
    if ForeignFree(nodes, origId, subs) {
      forall n, d | n in h && d in h[n] ensures d in h || (d in g && !Reaches(g, d, origId)) {
        FreeEdge(nodes, origId, subs, n, d);
      }
    }
    if SafeEdges(g, h, origId) {
      forall j, d | 0 <= j < |subs| && d in subs[j].dependsOn && d !in Ids(subs) ensures !Reaches(g, d, origId) {
        SafeEdgeIsFree(nodes, origId, subs, j, d);
      }
    }
  }

  lemma RemappedDep(nodes: seq<PlanNode>, origId: string, subs: seq<PlanNode>, j: nat, d: string)
    requires DistinctIds(subs) && ForeignKnown(nodes, subs) && j < |subs|
    requires d in Remapped(Ids(nodes), origId, subs)[j].dependsOn
    ensures d in Ids(Remapped(Ids(nodes), origId, subs))
         || (d in Ids(nodes) && d in subs[j].dependsOn && d !in Ids(subs))
  {
    hide FreshIds, IdMap;
    var r := Remapped(Ids(nodes), origId, subs);
    var k :| 0 <= k < |r[j].dependsOn| && r[j].dependsOn[k] == d;
    var e := subs[j].dependsOn[k];
    assert e in Elems(subs[j].dependsOn);
    if e in Ids(subs) {
      var i :| 0 <= i < |subs| && subs[i].id == e;
      RemappedIdAt(Ids(nodes), origId, subs, i);
      assert r[i].id in Ids(r);
    }
  }

  lemma ForeignDep(nodes: seq<PlanNode>, origId: string, subs: seq<PlanNode>, j: nat, d: string)
    requires ForeignKnown(nodes, subs) && j < |subs| && d in subs[j].dependsOn && d !in Ids(subs)
    ensures d in Ids(nodes) && d in Remapped(Ids(nodes), origId, subs)[j].dependsOn
    ensures d !in Ids(Remapped(Ids(nodes), origId, subs))
  {
    hide FreshIds, IdMap;
    RemappedIds(Ids(nodes), origId, subs);
    assert d in Elems(subs[j].dependsOn);
    var r := Remapped(Ids(nodes), origId, subs);
    var k :| 0 <= k < |subs[j].dependsOn| && subs[j].dependsOn[k] == d;
    assert r[j].dependsOn[k] == d;
  }

  /**
   An injection is safe exactly when the answer is, as far as foreign dependencies name nodes of the
   plan; the only other safe answers guess an id that the injection is about to generate.
   */
  lemma SafeIffAnswerSafe(nodes: seq<PlanNode>, origId: string, subs: seq<PlanNode>)
    ensures SafeAnswer(nodes, origId, subs) <==> SafeInjection(nodes, origId, subs) && ForeignKnown(nodes, subs)
  {
    hide InjectedGraph, PlanGraph, Acyclic, SafeEdges, ForeignFree, ForeignKnown, Embeds, NewIds, OldIds;
    if DistinctIds(subs) && ForeignKnown(nodes, subs) {
      NewIdsEmbed(nodes, origId, subs);
      OldIdsEmbed(nodes, origId, subs);
      EdgesSafeIffFree(nodes, origId, subs);
      if Acyclic(PlanGraph(subs)) {
        EmbeddedAcyclic(InjectedGraph(nodes, origId, subs), PlanGraph(subs), OldIds(nodes, origId, subs));
      }
      if Acyclic(InjectedGraph(nodes, origId, subs)) {
        EmbeddedAcyclic(PlanGraph(subs), InjectedGraph(nodes, origId, subs), NewIds(nodes, origId, subs));
      }
    }
  }

  /** Distinct ids, dependencies only on each other, and no cycle. */
  ghost predicate SelfContained(subs: seq<PlanNode>) {
    && DistinctIds(subs)
    && (forall i :: 0 <= i < |subs| ==> Elems(subs[i].dependsOn) <= Ids(subs))
    && Acyclic(PlanGraph(subs))
  }

  /** A self-contained sub-DAG is always safe to inject. */
  lemma SelfContainedIsSafe(nodes: seq<PlanNode>, origId: string, subs: seq<PlanNode>)
    requires SelfContained(subs)
    ensures SafeInjection(nodes, origId, subs)
  {
    hide SafeInjection, PlanGraph, Acyclic, DistinctIds, Ids, Reaches;
    NothingForeign(nodes, origId, subs);
    SafeIffAnswerSafe(nodes, origId, subs);
  }

  lemma NothingForeign(nodes: seq<PlanNode>, origId: string, subs: seq<PlanNode>)
    requires SelfContained(subs)
    ensures ForeignKnown(nodes, subs) && ForeignFree(nodes, origId, subs)
  {
    hide PlanGraph, Acyclic, DistinctIds, Ids, Reaches;
    forall j, d | 0 <= j < |subs| && d in subs[j].dependsOn ensures d in Ids(subs) {
      assert d in Elems(subs[j].dependsOn);
    }
  }

  lemma PlanGraphKeys(nodes: seq<PlanNode>)
    ensures PlanGraph(nodes).Keys == Ids(nodes)
  {
  }
}
