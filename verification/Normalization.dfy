/**
 What the planner's normalization means: which node lists it accepts, and the list it returns.
 The loops of module Planner are proved to compute exactly `Normalize`.
 */
module Normalization {
  import opened Wrappers
  import opened Dag
  import opened Text
  import opened Models
  import opened LeastOrder

  datatype PlannerError =
    | NoNodes
    | DuplicateIds
    | SelfDependency(node: string)
    | UnknownDependency(node: string, dependency: string)
    | DependencyCycle

  // ---- validation of dependencies, in scan order ----

  function BadDependency(id: string, dependsOn: seq<string>, known: set<string>): (r: Option<PlannerError>)
    ensures r.None? <==> id !in dependsOn && Elems(dependsOn) <= known
    ensures r.Some? ==> r.value.SelfDependency? || r.value.UnknownDependency?
  {
    if dependsOn == [] then None
    else
      assert Elems(dependsOn) == {dependsOn[0]} + Elems(dependsOn[1..]);
      if dependsOn[0] == id then Some(SelfDependency(id))
      else if dependsOn[0] !in known then Some(UnknownDependency(id, dependsOn[0]))
      else BadDependency(id, dependsOn[1..], known)
  }

  function FirstBadDependency(nodes: seq<PlanNode>, known: set<string>): (r: Option<PlannerError>)
    ensures r.None? <==> forall i :: 0 <= i < |nodes| ==> BadDependency(nodes[i].id, nodes[i].dependsOn, known).None?
    ensures r.Some? ==> r.value.SelfDependency? || r.value.UnknownDependency?
  {
    if nodes == [] then None
    else
      var bad := BadDependency(nodes[0].id, nodes[0].dependsOn, known);
      if bad.Some? then bad else FirstBadDependency(nodes[1..], known)
  }

  // ---- renaming ----

  function NormalizedId(k: nat): string {
    "node-" + Decimal(k)
  }

  /** The number after the first dash of a generated id. */
  function SortKey(id: string): nat {
    var parts := Split(id, '-');
    if |parts| > 1 then ParseDecimal(parts[1]) else 0
  }

  lemma SortKeyOfNormalizedId(k: nat)
    ensures SortKey(NormalizedId(k)) == k
  {
    assert NormalizedId(k) == "node" + ['-'] + Decimal(k);
    SplitAt("node", Decimal(k), '-');
    SplitSingle(Decimal(k), '-');
    ParseInvertsDecimal(k);
  }

  lemma NormalizedIdInjective(j: nat, k: nat)
    ensures NormalizedId(j) == NormalizedId(k) ==> j == k
  {
    SortKeyOfNormalizedId(j);
    SortKeyOfNormalizedId(k);
  }

  /** New names, in ascending order, of the first `k` nodes of `order` that `deps` mentions. */
  function NormalizedDeps(order: seq<string>, deps: seq<string>, k: nat): seq<string>
    requires k <= |order|
  {
    if k == 0 then []
    else NormalizedDeps(order, deps, k - 1) + (if order[k - 1] in deps then [NormalizedId(k)] else [])
  }

  function NormalizedNode(node: PlanNode, order: seq<string>, k: nat): PlanNode {
    node.(id := NormalizedId(k + 1),
          dependsOn := NormalizedDeps(order, node.dependsOn, |order|),
          status := Draft,
          error := None)
  }

  function Renamed(nodes: seq<PlanNode>, order: seq<string>): (r: seq<PlanNode>)
    requires Elems(order) <= Ids(nodes)
    ensures |r| == |order|
  {
    var m := NodeMap(nodes);
    assert forall k :: 0 <= k < |order| ==> order[k] in Elems(order);
    seq(|order|, k requires 0 <= k < |order| => NormalizedNode(m[order[k]], order, k))
  }

  function Normalize(nodes: seq<PlanNode>): Result<seq<PlanNode>, PlannerError> {
    if nodes == [] then Failure(NoNodes)
    else if |Ids(nodes)| != |nodes| then Failure(DuplicateIds)
    else
      var bad := FirstBadDependency(nodes, Ids(nodes));
      if bad.Some? then Failure(bad.value)
      else
        var order := Order(IdList(nodes), PlanGraph(nodes));
        if |order| != |nodes| then Failure(DependencyCycle) else Success(Renamed(nodes, order))
  }

  function BuildExecutionPlan(planId: string, nodes: seq<PlanNode>): Result<ExecutionPlan, PlannerError> {
    match Normalize(nodes)
    case Success(normalized) => Success(ExecutionPlan(planId, normalized, Draft))
    case Failure(e) => Failure(e)
  }

  /** The planning path: the reply is normalized when parsed and again when the plan is built. */
  function PlanTaskIntent(planId: string, reply: seq<PlanNode>): Result<ExecutionPlan, PlannerError> {
    match Normalize(reply)
    case Success(nodes) => BuildExecutionPlan(planId, nodes)
    case Failure(e) => Failure(e)
  }

  // ---- exactly which lists are accepted ----

  lemma DistinctIffSize(nodes: seq<PlanNode>)
    ensures |Ids(nodes)| == |nodes| <==> DistinctIds(nodes)
    ensures DistinctIds(nodes) <==> Distinct(IdList(nodes))
  {
    var ids := IdList(nodes);
    assert DistinctIds(nodes) <==> Distinct(ids);
    if Distinct(ids) {
      DistinctSize(ids);
    } else {
      var i, j :| 0 <= i < j < |ids| && ids[i] == ids[j];
      RepeatShrinks(ids, i, j);
    }
  }

  lemma RepeatShrinks<T>(s: seq<T>, i: nat, j: nat)
    requires i < j < |s| && s[i] == s[j]
    ensures |Elems(s)| < |s|
  {
    var rest := s[..j] + s[j + 1..];
    assert Elems(s) == Elems(rest) by {
      assert s[i] == rest[i];
      assert forall k :: 0 <= k < |s| && k != j ==> s[k] == rest[if k < j then k else k - 1];
    }
    ElemsSize(rest);
  }

  lemma {:induction false} ElemsSize<T>(s: seq<T>)
    ensures |Elems(s)| <= |s|
  {
    if s != [] {
      ElemsSize(s[1..]);
      assert Elems(s) == Elems(s[1..]) + {s[0]};
    }
  }

  ghost predicate DependenciesKnown(nodes: seq<PlanNode>) {
    forall i :: 0 <= i < |nodes| ==>
      nodes[i].id !in nodes[i].dependsOn && Elems(nodes[i].dependsOn) <= Ids(nodes)
  }

  lemma GraphAt(nodes: seq<PlanNode>, i: nat)
    requires DistinctIds(nodes) && i < |nodes|
    ensures nodes[i].id in PlanGraph(nodes)
    ensures PlanGraph(nodes)[nodes[i].id] == Elems(nodes[i].dependsOn)
  {
    NodeMapAt(nodes, i);
  }

  lemma KnownIsClosed(nodes: seq<PlanNode>)
    requires DistinctIds(nodes)
    requires forall i :: 0 <= i < |nodes| ==> Elems(nodes[i].dependsOn) <= Ids(nodes)
    ensures Closed(PlanGraph(nodes))
    ensures Lists(IdList(nodes), PlanGraph(nodes))
  {
    forall n | n in PlanGraph(nodes) ensures PlanGraph(nodes)[n] <= Ids(nodes) {
      var i :| 0 <= i < |nodes| && nodes[i].id == n;
      GraphAt(nodes, i);
    }
    DistinctIffSize(nodes);
  }

  lemma BadIffUnknown(nodes: seq<PlanNode>)
    ensures FirstBadDependency(nodes, Ids(nodes)).None? <==> DependenciesKnown(nodes)
  {
  }

  /** Accepted: non-empty, distinct ids, dependencies that are other listed nodes, and no cycle. */
  lemma ExactAcceptance(nodes: seq<PlanNode>)
    ensures Normalize(nodes).Success? <==>
            && nodes != []
            && DistinctIds(nodes)
            && DependenciesKnown(nodes)
            && Acyclic(PlanGraph(nodes))
  {
    DistinctIffSize(nodes);
    BadIffUnknown(nodes);
    if DistinctIds(nodes) && DependenciesKnown(nodes) {
      KnownIsClosed(nodes);
      CompleteIffAcyclic(IdList(nodes), PlanGraph(nodes));
    }
  }

  /** The cycle error is reported exactly for otherwise valid lists with a cycle. */
  lemma CycleErrorIffCyclic(nodes: seq<PlanNode>)
    ensures Normalize(nodes) == Failure(DependencyCycle) <==>
            && DistinctIds(nodes)
            && DependenciesKnown(nodes)
            && !Acyclic(PlanGraph(nodes))
  {
    DistinctIffSize(nodes);
    BadIffUnknown(nodes);
    if nodes == [] {
      RankedIsAcyclic(PlanGraph(nodes), map[]);
    } else if DistinctIds(nodes) && DependenciesKnown(nodes) {
      KnownIsClosed(nodes);
      CompleteIffAcyclic(IdList(nodes), PlanGraph(nodes));
    }
  }

  // ---- which error is reported ----

  /** The error for the `j`-th dependency of the `i`-th node, if it is itself or unknown. */
  function DependencyError(nodes: seq<PlanNode>, i: nat, j: nat): Option<PlannerError>
    requires i < |nodes| && j < |nodes[i].dependsOn|
  {
    var id, d := nodes[i].id, nodes[i].dependsOn[j];
    if d == id then Some(SelfDependency(id))
    else if d !in Ids(nodes) then Some(UnknownDependency(id, d))
    else None
  }

  lemma {:induction false} FirstBadOfNode(id: string, deps: seq<string>, known: set<string>) returns (j: nat)
    requires BadDependency(id, deps, known).Some?
    ensures j < |deps| && (deps[j] == id || deps[j] !in known)
    ensures BadDependency(id, deps, known).value
         == if deps[j] == id then SelfDependency(id) else UnknownDependency(id, deps[j])
    ensures forall k :: 0 <= k < j ==> deps[k] != id && deps[k] in known
  {
    if deps[0] == id || deps[0] !in known {
      j := 0;
    } else {
      var k := FirstBadOfNode(id, deps[1..], known);
      j := k + 1;
    }
  }

  lemma {:induction false} FirstBadNode(nodes: seq<PlanNode>, known: set<string>) returns (i: nat)
    requires FirstBadDependency(nodes, known).Some?
    ensures i < |nodes| && FirstBadDependency(nodes, known) == BadDependency(nodes[i].id, nodes[i].dependsOn, known)
    ensures forall k :: 0 <= k < i ==> BadDependency(nodes[k].id, nodes[k].dependsOn, known).None?
  {
    hide BadDependency;
    if BadDependency(nodes[0].id, nodes[0].dependsOn, known).Some? {
      i := 0;
    } else {
      var k := FirstBadNode(nodes[1..], known);
      i := k + 1;
      forall m | 0 <= m < i ensures BadDependency(nodes[m].id, nodes[m].dependsOn, known).None? {
        if m > 0 { assert nodes[1..][m - 1] == nodes[m]; }
      }
    }
  }

  /** Among several defects the first check that fails decides, and the first bad dependency in list order is named. */
  lemma RejectionNamesFirst(nodes: seq<PlanNode>)
    ensures Normalize(nodes) == Failure(NoNodes) <==> nodes == []
    ensures Normalize(nodes) == Failure(DuplicateIds) <==> nodes != [] && !DistinctIds(nodes)
    ensures nodes != [] && DistinctIds(nodes) && !DependenciesKnown(nodes) ==>
      exists i, j :: 0 <= i < |nodes| && 0 <= j < |nodes[i].dependsOn| && FirstOffender(nodes, i, j)
  {
    DistinctIffSize(nodes);
    BadIffUnknown(nodes);
    if nodes != [] && DistinctIds(nodes) && !DependenciesKnown(nodes) {
      var i := FirstBadNode(nodes, Ids(nodes));
      var j := FirstBadOfNode(nodes[i].id, nodes[i].dependsOn, Ids(nodes));
      forall a, b | 0 <= a <= i && 0 <= b < |nodes[a].dependsOn| && (a < i || b < j)
        ensures DependencyError(nodes, a, b).None?
      {
        EarlierIsFine(nodes, i, j, a, b);
      }
      assert FirstOffender(nodes, i, j);
    }
  }

  lemma EarlierIsFine(nodes: seq<PlanNode>, i: nat, j: nat, a: nat, b: nat)
    requires a <= i < |nodes| && b < |nodes[a].dependsOn| && (a == i ==> b < j)
    requires forall k :: 0 <= k < i ==> BadDependency(nodes[k].id, nodes[k].dependsOn, Ids(nodes)).None?
    requires j <= |nodes[i].dependsOn|
    requires forall k :: 0 <= k < j ==> nodes[i].dependsOn[k] != nodes[i].id && nodes[i].dependsOn[k] in Ids(nodes)
    ensures DependencyError(nodes, a, b).None?
  {
    hide Ids;
    if a < i {
      assert nodes[a].dependsOn[b] in Elems(nodes[a].dependsOn);
    }
  }

  /** Normalization fails with the error of this dependency, and every earlier one is fine. */
  ghost predicate FirstOffender(nodes: seq<PlanNode>, i: nat, j: nat)
    requires i < |nodes| && j < |nodes[i].dependsOn|
  {
    && DependencyError(nodes, i, j).Some?
    && Normalize(nodes) == Failure(DependencyError(nodes, i, j).value)
    && forall a, b :: 0 <= a <= i && 0 <= b < |nodes[a].dependsOn| && (a < i || b < j) ==>
         DependencyError(nodes, a, b).None?
  }
}
