/**
 The planner's normalization as it runs: a validating pass that fills in-degree counters and
 adjacency lists, the queue-driven sort, and a renaming pass.
 */
module Planner {
  import opened Wrappers
  import opened Dag
  import opened Models
  import opened LeastOrder
  import opened Sorting
  import opened TopologicalSort
  import opened Normalization
  import opened NormalizationTheorems

  lemma BadDependencyStep(id: string, deps: seq<string>, known: set<string>, i: nat)
    requires i <= |deps|
    ensures BadDependency(id, deps[i..], known) ==
      if i == |deps| then None
      else if deps[i] == id then Some(SelfDependency(id))
      else if deps[i] !in known then Some(UnknownDependency(id, deps[i]))
      else BadDependency(id, deps[i + 1..], known)
  {
    if i < |deps| {
      assert deps[i..][0] == deps[i] && deps[i..][1..] == deps[i + 1..];
    }
  }

  /** `unique` lists the members of `seen` once each. */
  ghost predicate ListsSet<T(!new)>(unique: seq<T>, seen: set<T>) {
    Distinct(unique) && Elems(unique) == seen
  }

  lemma ListOneMore<T(!new)>(unique: seq<T>, seen: set<T>, x: T)
    requires ListsSet(unique, seen) && x !in seen
    ensures ListsSet(unique + [x], seen + {x})
  {
    AppendElems(unique, x);
    assert forall i :: 0 <= i < |unique| ==> unique[i] in Elems(unique);
  }

  /** Scans one node's dependencies, dropping repetitions; stops at the first bad one. */
  method UniqueDependencies(node: PlanNode, known: set<string>) returns (bad: Option<PlannerError>, unique: seq<string>)
    ensures bad == BadDependency(node.id, node.dependsOn, known)
    ensures bad.None? ==> ListsSet(unique, Elems(node.dependsOn))
  {
    hide BadDependency, ListsSet, Elems;
    unique := [];
    var seen: set<string> := {};
    EmptyList<string>();
    assert node.dependsOn[0..] == node.dependsOn && node.dependsOn[..0] == [];
    for i := 0 to |node.dependsOn|
      invariant ListsSet(unique, seen) && seen == Elems(node.dependsOn[..i])
      invariant BadDependency(node.id, node.dependsOn, known) == BadDependency(node.id, node.dependsOn[i..], known)
    {
      var dependency := node.dependsOn[i];
      TakeElems(node.dependsOn, i);
      BadDependencyStep(node.id, node.dependsOn, known, i);
      if dependency == node.id {
        return Some(SelfDependency(node.id)), [];
      }
      if dependency !in known {
        return Some(UnknownDependency(node.id, dependency)), [];
      }
      if dependency !in seen {
        ListOneMore(unique, seen, dependency);
        seen := seen + {dependency};
        unique := unique + [dependency];
      }
    }
    BadDependencyStep(node.id, node.dependsOn, known, |node.dependsOn|);
    assert node.dependsOn[..|node.dependsOn|] == node.dependsOn;
    bad := None;
  }

  lemma EmptyList<T(!new)>()
    ensures ListsSet<T>([], {}) && Elems<T>([]) == {}
  {
  }

  /** The tables after the first `k` nodes of the list. */
  ghost predicate Tables(nodes: seq<PlanNode>, k: nat, indegree: map<string, nat>, adjacency: map<string, seq<string>>)
    requires k <= |nodes|
  {
    && indegree.Keys == adjacency.Keys == Ids(nodes)
    && (forall i :: 0 <= i < k ==> indegree[nodes[i].id] == |Elems(nodes[i].dependsOn)|)
    && (forall d :: d in adjacency ==> Adjacent(nodes, k, adjacency[d], d))
  }

  /** `adjacent` lists once each of the first `k` nodes that depends on `d`. */
  ghost predicate Adjacent(nodes: seq<PlanNode>, k: nat, adjacent: seq<string>, d: string)
    requires k <= |nodes|
  {
    && Distinct(adjacent)
    && (forall n :: n in adjacent ==> n in Ids(nodes[..k]))
    && (forall i :: 0 <= i < k ==> (nodes[i].id in adjacent <==> d in nodes[i].dependsOn))
  }

  /** Records `id` as downstream of each of its dependencies. */
  method AddDownstream(adjacency0: map<string, seq<string>>, id: string, unique: seq<string>)
    returns (adjacency: map<string, seq<string>>)
    requires Distinct(unique) && Elems(unique) <= adjacency0.Keys
    ensures adjacency.Keys == adjacency0.Keys
    ensures forall d :: d in adjacency ==>
      adjacency[d] == if d in unique then adjacency0[d] + [id] else adjacency0[d]
  {
    adjacency := adjacency0;
    for j := 0 to |unique|
      invariant adjacency.Keys == adjacency0.Keys
      invariant forall d :: d in adjacency ==>
        adjacency[d] == if d in unique[..j] then adjacency0[d] + [id] else adjacency0[d]
    {
      assert unique[j] in Elems(unique);
      adjacency := adjacency[unique[j] := adjacency[unique[j]] + [id]];
    }
    assert unique[..|unique|] == unique;
  }

  lemma AdjacentStep(nodes: seq<PlanNode>, k: nat, adjacent: seq<string>, d: string)
    requires DistinctIds(nodes) && k < |nodes| && Adjacent(nodes, k, adjacent, d)
    ensures Adjacent(nodes, k + 1, if d in nodes[k].dependsOn then adjacent + [nodes[k].id] else adjacent, d)
  {
    assert nodes[..k + 1] == nodes[..k] + [nodes[k]];
    IdsAppend(nodes[..k], [nodes[k]]);
    assert nodes[k].id !in Ids(nodes[..k]) by {
      forall i | 0 <= i < k ensures nodes[..k][i].id != nodes[k].id {}
    }
    assert Ids([nodes[k]]) == {nodes[k].id} by {
      assert [nodes[k]][0].id == nodes[k].id;
    }
    forall i | 0 <= i < k ensures nodes[i].id != nodes[k].id {}
  }

  lemma FirstBadStep(nodes: seq<PlanNode>, known: set<string>, k: nat)
    requires k <= |nodes|
    ensures FirstBadDependency(nodes[k..], known) ==
      if k == |nodes| then None
      else
        var bad := BadDependency(nodes[k].id, nodes[k].dependsOn, known);
        if bad.Some? then bad else FirstBadDependency(nodes[k + 1..], known)
  {
    if k < |nodes| {
      assert nodes[k..][0] == nodes[k] && nodes[k..][1..] == nodes[k + 1..];
    }
  }

  lemma TablesStep(nodes: seq<PlanNode>, k: nat, unique: seq<string>, indegree: map<string, nat>,
                   adjacency: map<string, seq<string>>, adjacency': map<string, seq<string>>)
    requires DistinctIds(nodes) && k < |nodes| && Tables(nodes, k, indegree, adjacency)
    requires ListsSet(unique, Elems(nodes[k].dependsOn)) && adjacency'.Keys == adjacency.Keys
    requires forall d :: d in adjacency' ==>
      adjacency'[d] == if d in unique then adjacency[d] + [nodes[k].id] else adjacency[d]
    ensures Tables(nodes, k + 1, indegree[nodes[k].id := |unique|], adjacency')
  {
    hide Adjacent;
    DistinctSize(unique);
    forall d | d in adjacency' ensures Adjacent(nodes, k + 1, adjacency'[d], d) {
      AdjacentStep(nodes, k, adjacency[d], d);
      assert d in Elems(unique) <==> d in Elems(nodes[k].dependsOn);
    }
    forall i | 0 <= i < k ensures nodes[i].id != nodes[k].id {}
  }

  lemma NoTables(nodes: seq<PlanNode>, indegree: map<string, nat>, adjacency: map<string, seq<string>>)
    requires indegree.Keys == adjacency.Keys == Ids(nodes)
    requires forall d :: d in adjacency ==> adjacency[d] == []
    ensures Tables(nodes, 0, indegree, adjacency)
  {
  }

  lemma TablesKeys(nodes: seq<PlanNode>, k: nat, indegree: map<string, nat>, adjacency: map<string, seq<string>>)
    requires k <= |nodes| && Tables(nodes, k, indegree, adjacency)
    ensures indegree.Keys == adjacency.Keys == Ids(nodes)
  {
  }

  lemma GoodUnique(node: PlanNode, known: set<string>, unique: seq<string>)
    requires BadDependency(node.id, node.dependsOn, known).None? && ListsSet(unique, Elems(node.dependsOn))
    ensures Distinct(unique) && Elems(unique) <= known
  {
  }

  /** The validating pass over the node list. */
  method BuildTables(nodes: seq<PlanNode>)
    returns (bad: Option<PlannerError>, indegree: map<string, nat>, adjacency: map<string, seq<string>>)
    requires DistinctIds(nodes)
    ensures bad == FirstBadDependency(nodes, Ids(nodes))
    ensures bad.None? ==> Tables(nodes, |nodes|, indegree, adjacency)
  {
    hide Tables, FirstBadDependency, BadDependency, ListsSet, DistinctIds, Ids, Elems, Distinct;
    var known := Ids(nodes);
    indegree := map id | id in known :: 0;
    adjacency := map id | id in known :: [];
    NoTables(nodes, indegree, adjacency);
    assert nodes[0..] == nodes;
    for k := 0 to |nodes|
      invariant FirstBadDependency(nodes, known) == FirstBadDependency(nodes[k..], known)
      invariant Tables(nodes, k, indegree, adjacency)
    {
      FirstBadStep(nodes, known, k);
      TablesKeys(nodes, k, indegree, adjacency);
      var unique;
      bad, unique := UniqueDependencies(nodes[k], known);
      if bad.Some? {
        return;
      }
      GoodUnique(nodes[k], known, unique);
      var adjacency' := AddDownstream(adjacency, nodes[k].id, unique);
      TablesStep(nodes, k, unique, indegree, adjacency, adjacency');
      indegree, adjacency := indegree[nodes[k].id := |unique|], adjacency';
    }
    FirstBadStep(nodes, known, |nodes|);
    bad := None;
  }

  lemma TablesDescribe(nodes: seq<PlanNode>, indegree: map<string, nat>, adjacency: map<string, seq<string>>)
    requires DistinctIds(nodes) && DependenciesKnown(nodes)
    requires Tables(nodes, |nodes|, indegree, adjacency)
    ensures Describes(PlanGraph(nodes), indegree, adjacency)
  {
    hide Adjacent;
    var g := PlanGraph(nodes);
    forall n | n in g ensures indegree[n] == |g[n]| {
      var i := FindIndex(nodes, n).value;
      GraphAt(nodes, i);
    }
    forall d | d in g ensures DownstreamOf(g, adjacency[d], d) {
      AdjacentIsDownstream(nodes, adjacency[d], d);
    }
  }

  lemma AdjacentIsDownstream(nodes: seq<PlanNode>, adjacent: seq<string>, d: string)
    requires DistinctIds(nodes) && Adjacent(nodes, |nodes|, adjacent, d)
    ensures DownstreamOf(PlanGraph(nodes), adjacent, d)
  {
    assert nodes[..|nodes|] == nodes;
    forall n ensures n in adjacent <==> n in PlanGraph(nodes) && d in PlanGraph(nodes)[n] {
      if n in Ids(nodes) {
        var i := FindIndex(nodes, n).value;
        GraphAt(nodes, i);
      }
    }
  }

  /** New names of a node's dependencies, collected as a set and sorted by their number. */
  method RenameDependencies(order: seq<string>, newName: map<string, string>,
                            deps: seq<string>) returns (r: seq<string>)
    requires Distinct(order) && newName.Keys == Elems(order) && Elems(deps) <= Elems(order)
    requires forall k :: 0 <= k < |order| ==> newName[order[k]] == NormalizedId(k + 1)
    ensures r == NormalizedDeps(order, deps, |order|)
  {
    hide NormalizedDeps, SortKey, NormalizedId;
    assert forall d :: d in deps ==> d in Elems(deps);
    var names := set d | d in deps :: newName[d];
    forall x ensures x in names <==> x in NormalizedDeps(order, deps, |order|) {
      NamesAreDeps(order, newName, deps, x);
    }
    forall x, y | x in names && y in names && x != y ensures SortKey(x) != SortKey(y) {
      NormalizedDepsAt(order, deps, |order|, x);
      NormalizedDepsAt(order, deps, |order|, y);
    }
    r := SortedSet(names, SortKey);
    NormalizedDepsAscend(order, deps, |order|);
    SameAscending(r, NormalizedDeps(order, deps, |order|), SortKey);
  }

  lemma NamesAreDeps(order: seq<string>, newName: map<string, string>, deps: seq<string>, x: string)
    requires newName.Keys == Elems(order)
    requires forall k :: 0 <= k < |order| ==> newName[order[k]] == NormalizedId(k + 1)
    ensures (exists d :: d in deps && d in newName && x == newName[d]) <==> x in NormalizedDeps(order, deps, |order|)
  {
    hide NormalizedDeps, SortKey, NormalizedId, Elems, IsName;
    NormalizedDepsAt(order, deps, |order|, x);
    if IsName(x, |order|) && x in NormalizedDeps(order, deps, |order|) {
      NameAt(order, newName, x);
    }
    if d :| d in deps && d in newName && x == newName[d] {
      NameOfDep(order, newName, deps, d);
    }
  }

  lemma NameAt(order: seq<string>, newName: map<string, string>, x: string)
    requires newName.Keys == Elems(order) && IsName(x, |order|)
    requires forall k :: 0 <= k < |order| ==> newName[order[k]] == NormalizedId(k + 1)
    ensures 0 <= SortKey(x) - 1 < |order| && order[SortKey(x) - 1] in newName && newName[order[SortKey(x) - 1]] == x
  {
    hide SortKey, NormalizedId;
    assert order[SortKey(x) - 1] in Elems(order);
  }

  lemma NameOfDep(order: seq<string>, newName: map<string, string>, deps: seq<string>, d: string)
    requires newName.Keys == Elems(order) && d in newName && d in deps
    requires forall k :: 0 <= k < |order| ==> newName[order[k]] == NormalizedId(k + 1)
    ensures IsName(newName[d], |order|) && order[SortKey(newName[d]) - 1] == d
  {
    hide SortKey, NormalizedId;
    var k :| 0 <= k < |order| && order[k] == d;
    SortKeyOfNormalizedId(k + 1);
  }

  /** One renamed node: new name, renamed dependencies, reset status and error. */
  method RenameNode(node: PlanNode, order: seq<string>, newName: map<string, string>, k: nat) returns (r: PlanNode)
    requires Distinct(order) && newName.Keys == Elems(order) && Elems(node.dependsOn) <= Elems(order)
    requires forall i :: 0 <= i < |order| ==> newName[order[i]] == NormalizedId(i + 1)
    requires k < |order|
    ensures r == NormalizedNode(node, order, k)
  {
    hide NormalizedDeps, NormalizedId;
    var deps := RenameDependencies(order, newName, node.dependsOn);
    r := node.(id := newName[order[k]], dependsOn := deps, status := Draft, error := None);
  }

  /** The renaming pass. */
  method RenameNodes(nodes: seq<PlanNode>, order: seq<string>) returns (r: seq<PlanNode>)
    requires DistinctIds(nodes) && DependenciesKnown(nodes)
    requires Distinct(order) && Elems(order) == Ids(nodes)
    ensures r == Renamed(nodes, order)
  {
    hide NormalizedDeps, NormalizedId, DependenciesKnown, DistinctIds, Renamed, NormalizedNode, Ids;
    var nodeMap := NodeMap(nodes);
    var newName := NewNames(order);
    NewNamesAt(order);
    r := [];
    for k := 0 to |order|
      invariant r == Renamed(nodes, order)[..k]
    {
      RenamedStep(nodes, order, k);
      NodeDependenciesKnown(nodes, order[k]);
      var node := RenameNode(nodeMap[order[k]], order, newName, k);
      r := r + [node];
    }
  }

  /** Each node of the order with the name its place gives it. */
  function NewNames(order: seq<string>): (newName: map<string, string>)
    requires Distinct(order)
    ensures newName.Keys == Elems(order)
  {
    var rank := Ranks(order);
    map id | id in rank :: NormalizedId(rank[id] + 1)
  }

  lemma NewNamesAt(order: seq<string>)
    requires Distinct(order)
    ensures forall k :: 0 <= k < |order| ==>
      order[k] in NewNames(order) && NewNames(order)[order[k]] == NormalizedId(k + 1)
  {
    hide NormalizedId, Distinct;
    assert forall k :: 0 <= k < |order| ==> order[k] in Elems(order) && Ranks(order)[order[k]] == k;
  }

  lemma RenamedStep(nodes: seq<PlanNode>, order: seq<string>, k: nat)
    requires Elems(order) == Ids(nodes) && k < |order|
    ensures order[k] in NodeMap(nodes)
    ensures Renamed(nodes, order)[..k + 1]
         == Renamed(nodes, order)[..k] + [NormalizedNode(NodeMap(nodes)[order[k]], order, k)]
  {
    hide NormalizedNode;
    assert order[k] in Elems(order);
    assert Renamed(nodes, order)[k] == NormalizedNode(NodeMap(nodes)[order[k]], order, k);
  }

  lemma NodeDependenciesKnown(nodes: seq<PlanNode>, id: string)
    requires DependenciesKnown(nodes) && id in NodeMap(nodes)
    ensures Elems(NodeMap(nodes)[id].dependsOn) <= Ids(nodes)
  {
    var i :| 0 <= i < |nodes| && nodes[i] == NodeMap(nodes)[id];
  }

  /** Validates a node list, orders it topologically, and gives its nodes deterministic ids. */
  method NormalizePlanNodes(nodes: seq<PlanNode>) returns (r: Result<seq<PlanNode>, PlannerError>)
    ensures r == Normalize(nodes)
  {
    hide Tables, Order, OrderFrom, Renamed;
    if nodes == [] {
      return Failure(NoNodes);
    }
    if |NodeMap(nodes).Keys| != |nodes| {
      return Failure(DuplicateIds);
    }
    DistinctIffSize(nodes);
    var bad, indegree, adjacency := BuildTables(nodes);
    if bad.Some? {
      return Failure(bad.value);
    }
    BadIffUnknown(nodes);
    KnownIsClosed(nodes);
    TablesDescribe(nodes, indegree, adjacency);
    var order := TopologicalOrder(IdList(nodes), PlanGraph(nodes), indegree, adjacency);
    if |order| != |nodes| {
      return Failure(DependencyCycle);
    }
    OrderElems(IdList(nodes), PlanGraph(nodes));
    OrderIsDistinct(IdList(nodes), PlanGraph(nodes));
    var renamed := RenameNodes(nodes, order);
    r := Success(renamed);
  }

  lemma OrderIsDistinct<T(!new)>(ids: seq<T>, g: Graph<T>)
    ensures Distinct(Order(ids, g))
  {
  }
}
