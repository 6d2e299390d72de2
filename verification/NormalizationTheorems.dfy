/** What normalization returns: least topological order, an isomorphic graph, and a fixed point. */
module NormalizationTheorems {
  import opened Wrappers
  import opened Dag
  import opened Text
  import opened Models
  import opened LeastOrder
  import opened Normalization
  import opened Sorting

  function PlanOrder(nodes: seq<PlanNode>): seq<string> {
    Order(IdList(nodes), PlanGraph(nodes))
  }

  lemma AcceptedFacts(nodes: seq<PlanNode>)
    requires Normalize(nodes).Success?
    ensures DistinctIds(nodes) && DependenciesKnown(nodes)
    ensures Lists(IdList(nodes), PlanGraph(nodes)) && Closed(PlanGraph(nodes))
    ensures |PlanOrder(nodes)| == |nodes|
    ensures Elems(PlanOrder(nodes)) == Ids(nodes)
    ensures Normalize(nodes).value == Renamed(nodes, PlanOrder(nodes))
  {
    ExactAcceptance(nodes);
    KnownIsClosed(nodes);
    OrderElems(IdList(nodes), PlanGraph(nodes));
  }

  lemma OrderElems<T(!new)>(ids: seq<T>, g: Graph<T>)
    requires Distinct(ids) && |Order(ids, g)| == |ids|
    ensures Elems(Order(ids, g)) == Elems(ids)
  {
    SizeIffElems(ids, Order(ids, g));
  }

  /** The returned list follows the least topological order of the input with respect to input positions. */
  lemma OrderIsLeastTopological(nodes: seq<PlanNode>)
    requires Normalize(nodes).Success?
    ensures IsTopological(PlanGraph(nodes), PlanOrder(nodes))
    ensures forall t :: IsTopological(PlanGraph(nodes), t) ==> LexLeq(IdList(nodes), PlanOrder(nodes), t)
  {
    AcceptedFacts(nodes);
    LeastTopologicalOrder(IdList(nodes), PlanGraph(nodes));
  }

  // ---- the renamed dependencies ----

  /** `d` is one of the names node-1, ..., node-k. */
  predicate IsName(d: string, k: nat) {
    1 <= SortKey(d) <= k && d == NormalizedId(SortKey(d))
  }

  lemma {:induction false} NormalizedDepsAt(order: seq<string>, deps: seq<string>, k: nat, d: string)
    requires k <= |order|
    ensures d in NormalizedDeps(order, deps, k) <==> IsName(d, k) && order[SortKey(d) - 1] in deps
  {
    if k > 0 {
      NormalizedDepsAt(order, deps, k - 1, d);
      SortKeyOfNormalizedId(k);
    }
  }

  ghost predicate Ascending(d: seq<string>) {
    AscendingBy(d, SortKey)
  }

  lemma {:induction false} NormalizedDepsAscend(order: seq<string>, deps: seq<string>, k: nat)
    requires k <= |order|
    ensures Ascending(NormalizedDeps(order, deps, k))
  {
    if k > 0 {
      var before := NormalizedDeps(order, deps, k - 1);
      NormalizedDepsAscend(order, deps, k - 1);
      SortKeyOfNormalizedId(k);
      forall a | 0 <= a < |before| ensures SortKey(before[a]) < k {
        NormalizedDepsAt(order, deps, k - 1, before[a]);
      }
    }
  }

  // ---- isomorphism ----

  lemma RenamedAt(nodes: seq<PlanNode>, k: nat)
    requires Normalize(nodes).Success? && k < |PlanOrder(nodes)|
    ensures |Normalize(nodes).value| == |PlanOrder(nodes)|
    ensures PlanOrder(nodes)[k] in NodeMap(nodes)
    ensures Normalize(nodes).value[k]
         == NormalizedNode(NodeMap(nodes)[PlanOrder(nodes)[k]], PlanOrder(nodes), k)
  {
    AcceptedFacts(nodes);
    assert PlanOrder(nodes)[k] in Elems(PlanOrder(nodes));
  }

  /** The k-th node of the order keeps its payload, takes the k-th new name, and is reset. */
  lemma NormalizePreservesPayload(nodes: seq<PlanNode>, k: nat)
    requires Normalize(nodes).Success? && k < |nodes|
    ensures |Normalize(nodes).value| == |PlanOrder(nodes)| == |nodes|
    ensures Distinct(PlanOrder(nodes)) && Elems(PlanOrder(nodes)) == Ids(nodes)
    ensures PlanOrder(nodes)[k] in NodeMap(nodes)
    ensures var before, after := NodeMap(nodes)[PlanOrder(nodes)[k]], Normalize(nodes).value[k];
            && after.id == "node-" + Decimal(k + 1) && after.status == Draft && after.error == None
            && after.objective == before.objective && after.assignedClaw == before.assignedClaw
            && after.inputs == before.inputs && after.outputs == before.outputs
            && after.acceptance == before.acceptance
  {
    AcceptedFacts(nodes);
    RenamedAt(nodes, k);
  }

  /** Renaming is a graph isomorphism: new edges are exactly the old edges under the new names. */
  lemma NormalizePreservesEdges(nodes: seq<PlanNode>, i: nat, k: nat)
    requires Normalize(nodes).Success? && i < |nodes| && k < |nodes|
    ensures |Normalize(nodes).value| == |PlanOrder(nodes)| == |nodes|
    ensures PlanOrder(nodes)[k] in NodeMap(nodes)
    ensures "node-" + Decimal(i + 1) in Normalize(nodes).value[k].dependsOn
       <==> PlanOrder(nodes)[i] in NodeMap(nodes)[PlanOrder(nodes)[k]].dependsOn
  {
    AcceptedFacts(nodes);
    RenamedAt(nodes, k);
    RenamedEdge(PlanOrder(nodes), NodeMap(nodes)[PlanOrder(nodes)[k]].dependsOn, i);
  }

  lemma RenamedEdge(order: seq<string>, deps: seq<string>, i: nat)
    requires i < |order|
    ensures NormalizedId(i + 1) in NormalizedDeps(order, deps, |order|) <==> order[i] in deps
  {
    NormalizedDepsAt(order, deps, |order|, NormalizedId(i + 1));
    SortKeyOfNormalizedId(i + 1);
  }

  /** Names are node-1, node-2, ..., and each dependency names an earlier node, in ascending order. */
  ghost predicate Normalized(r: seq<PlanNode>) {
    forall k :: 0 <= k < |r| ==> NormalizedEntry(r[k], k)
  }

  ghost predicate NormalizedEntry(node: PlanNode, k: nat) {
    && node.id == NormalizedId(k + 1) && node.status == Draft && node.error == None
    && (forall d :: d in node.dependsOn ==> IsName(d, k))
    && Ascending(node.dependsOn)
  }

  lemma NormalizeIsNormalized(nodes: seq<PlanNode>)
    requires Normalize(nodes).Success?
    ensures Normalized(Normalize(nodes).value)
  {
    AcceptedFacts(nodes);
    OrderIsLeastTopological(nodes);
    var o, r := PlanOrder(nodes), Normalize(nodes).value;
    forall k | 0 <= k < |r| ensures NormalizedEntry(r[k], k) {
      RenamedAt(nodes, k);
      EntryIsNormalized(nodes, k);
    }
  }

  lemma EntryIsNormalized(nodes: seq<PlanNode>, k: nat)
    requires Normalize(nodes).Success? && k < |PlanOrder(nodes)|
    requires IsTopological(PlanGraph(nodes), PlanOrder(nodes)) && PlanOrder(nodes)[k] in NodeMap(nodes)
    ensures NormalizedEntry(NormalizedNode(NodeMap(nodes)[PlanOrder(nodes)[k]], PlanOrder(nodes), k), k)
  {
    var o := PlanOrder(nodes);
    var deps := NodeMap(nodes)[o[k]].dependsOn;
    NormalizedDepsAscend(o, deps, |o|);
    forall d | d in NormalizedDeps(o, deps, |o|) ensures IsName(d, k) {
      NormalizedDepsAt(o, deps, |o|, d);
      EarlierInOrder(nodes, o, SortKey(d) - 1, k);
    }
  }

  lemma EarlierInOrder(nodes: seq<PlanNode>, o: seq<string>, i: nat, k: nat)
    requires IsTopological(PlanGraph(nodes), o) && i < |o| && k < |o|
    requires o[k] in PlanGraph(nodes) && o[i] in NodeMap(nodes)[o[k]].dependsOn
    ensures i < k
  {
    assert o[i] in PlanGraph(nodes)[o[k]];
    assert o[i] in o[..k];
  }

  // ---- idempotence ----

  /** A list already in topological order is its own least order. */
  lemma OrderOfSorted<T(!new)>(ids: seq<T>, g: Graph<T>)
    requires Lists(ids, g) && IsTopological(g, ids)
    ensures Order(ids, g) == ids
  {
    TopologicalIsRanked(g, ids);
    RankedIsAcyclic(g, Ranks(ids));
    CompleteIffAcyclic(ids, g);
    LeastTopologicalOrder(ids, g);
    SortedIsLeast(ids, Order(ids, g));
  }

  lemma SortedIsLeast<T(!new)>(ids: seq<T>, o: seq<T>)
    requires Distinct(ids) && Distinct(o) && Elems(o) <= Elems(ids) && LexLeq(ids, o, ids)
    ensures o == ids
  {
    forall k: nat | FirstDifference(o, ids, k) ensures !EarlierListed(ids, o[k], ids[k]) {
      NotEarlierThanOwnPlace(ids, o, k);
    }
  }

  lemma NotEarlierThanOwnPlace<T(!new)>(ids: seq<T>, o: seq<T>, k: nat)
    requires Distinct(ids) && Distinct(o) && FirstDifference(o, ids, k)
    ensures !EarlierListed(ids, o[k], ids[k])
  {
    forall p | 0 <= p < k ensures ids[p] != o[k] {
      assert ids[p] == ids[..k][p] == o[..k][p] == o[p];
    }
    assert Position(ids, ids[k]) == k;
  }

  lemma NormalizedDistinct(r: seq<PlanNode>)
    requires Normalized(r)
    ensures DistinctIds(r)
  {
    forall i, j | 0 <= i < j < |r| ensures r[i].id != r[j].id {
      NormalizedIdInjective(i + 1, j + 1);
    }
  }

  lemma NormalizedDependencies(r: seq<PlanNode>, k: nat)
    requires Normalized(r) && k < |r|
    ensures r[k].id !in r[k].dependsOn
    ensures Elems(r[k].dependsOn) <= Elems(IdList(r)[..k])
    ensures Elems(r[k].dependsOn) <= Ids(r)
  {
    var ids := IdList(r);
    SortKeyOfNormalizedId(k + 1);
    forall d | d in r[k].dependsOn ensures d in ids[..k] && d in Ids(r) {
      var i := SortKey(d) - 1;
      assert r[i].id == d;
      assert ids[..k][i] == d;
    }
  }

  lemma NormalizedTopological(r: seq<PlanNode>)
    requires Normalized(r)
    ensures DistinctIds(r) && DependenciesKnown(r)
    ensures IsTopological(PlanGraph(r), IdList(r))
  {
    NormalizedDistinct(r);
    DistinctIffSize(r);
    forall k | 0 <= k < |r|
      ensures r[k].id !in r[k].dependsOn && Elems(r[k].dependsOn) <= Ids(r)
      ensures PlanGraph(r)[IdList(r)[k]] <= Elems(IdList(r)[..k])
    {
      NormalizedDependencies(r, k);
      GraphAt(r, k);
    }
  }

  lemma RenamingFixesNormalized(r: seq<PlanNode>, k: nat)
    requires Normalized(r) && k < |r|
    ensures NormalizedDeps(IdList(r), r[k].dependsOn, |r|) == r[k].dependsOn
  {
    var ids, deps := IdList(r), r[k].dependsOn;
    var again := NormalizedDeps(ids, deps, |r|);
    NormalizedDepsAscend(ids, deps, |r|);
    forall d ensures d in again <==> d in deps {
      NormalizedDepsAt(ids, deps, |r|, d);
      if IsName(d, |r|) {
        assert ids[SortKey(d) - 1] == r[SortKey(d) - 1].id == d;
      }
    }
    SameAscending(again, deps, SortKey);
  }

  lemma NormalizedAccepted(r: seq<PlanNode>)
    requires r != [] && Normalized(r)
    ensures Normalize(r).Success? && PlanOrder(r) == IdList(r)
  {
    NormalizedTopological(r);
    TopologicalIsRanked(PlanGraph(r), IdList(r));
    RankedIsAcyclic(PlanGraph(r), Ranks(IdList(r)));
    ExactAcceptance(r);
    AcceptedFacts(r);
    OrderOfSorted(IdList(r), PlanGraph(r));
  }

  lemma NormalizedEntryFixed(r: seq<PlanNode>, k: nat)
    requires Normalized(r) && k < |r|
    ensures NormalizedNode(r[k], IdList(r), k) == r[k]
  {
    RenamingFixesNormalized(r, k);
  }

  lemma RenamingFixesAll(r: seq<PlanNode>)
    requires Normalized(r) && DistinctIds(r)
    ensures Renamed(r, IdList(r)) == r
  {
    var again := Renamed(r, IdList(r));
    forall k | 0 <= k < |r| ensures again[k] == r[k] {
      NodeMapAt(r, k);
      NormalizedEntryFixed(r, k);
    }
  }

  /** A normalized list is returned unchanged. */
  lemma NormalizedIsFixed(r: seq<PlanNode>)
    requires r != [] && Normalized(r)
    ensures Normalize(r) == Success(r)
  {
    NormalizedAccepted(r);
    NormalizedDistinct(r);
    RenamingFixesAll(r);
  }

  /** Normalizing twice is normalizing once. */
  lemma NormalizeIdempotent(nodes: seq<PlanNode>)
    requires Normalize(nodes).Success?
    ensures Normalize(Normalize(nodes).value) == Normalize(nodes)
  {
    AcceptedFacts(nodes);
    NormalizeIsNormalized(nodes);
    NormalizedIsFixed(Normalize(nodes).value);
  }

  /** The planning path, which normalizes twice, builds the draft plan of a single normalization, or fails like it. */
  lemma PlanTaskIntentNormalizesOnce(planId: string, reply: seq<PlanNode>)
    ensures PlanTaskIntent(planId, reply) == BuildExecutionPlan(planId, reply)
    ensures PlanTaskIntent(planId, reply).Success? <==> Normalize(reply).Success?
    ensures Normalize(reply).Failure? ==> PlanTaskIntent(planId, reply).error == Normalize(reply).error
    ensures Normalize(reply).Success? ==>
      var plan := PlanTaskIntent(planId, reply).value;
      plan.planId == planId && plan.status == Draft && plan.nodes == Normalize(reply).value
  {
    if Normalize(reply).Success? {
      NormalizeIdempotent(reply);
    }
  }
}
