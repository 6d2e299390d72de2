/** Sub-DAG injection as it runs: loops that pick fresh ids, remap, append and rewire. */
module SubdagInjector {
  import opened Wrappers
  import opened Dag
  import opened Text
  import opened Models
  import opened Injection
  import opened InjectionContracts

  /** Tries the base id, then numbered ones, until one is free. */
  method PickFresh(existing: set<string>, base: string) returns (candidate: string)
    ensures candidate == FreshId(existing, base)
  {
    candidate := base;
    var suffix := 0;
    while candidate in existing
      invariant candidate == Candidate(base, suffix)
      invariant FreshFrom(existing, base, 0) == FreshFrom(existing, base, suffix)
      decreases Untried(existing, base, suffix)
    {
      TryingShrinks(existing, base, suffix);
      suffix := suffix + 1;
      candidate := base + "-" + Decimal(suffix);
    }
  }

  /** Assigns a fresh id to every sub-node. */
  method AssignIds(existing0: set<string>, origId: string, subs: seq<PlanNode>) returns (idMap: map<string, string>)
    ensures idMap == IdMap(subs, FreshIds(existing0, origId, |subs|))
  {
    hide FreshId;
    var existing := existing0;
    idMap := map[];
    ghost var ids: seq<string> := [];
    for k := 0 to |subs|
      invariant ids == FreshIds(existing0, origId, k)
      invariant existing == existing0 + Elems(ids)
      invariant idMap == IdMap(subs[..k], ids)
    {
      var candidate := PickFresh(existing, BaseId(origId, k));
      IdMapStep(subs, ids, candidate, k);
      idMap := idMap[subs[k].id := candidate];
      existing := existing + {candidate};
      ids := ids + [candidate];
    }
    assert subs[..|subs|] == subs;
  }

  lemma IdMapStep(subs: seq<PlanNode>, ids: seq<string>, candidate: string, k: nat)
    requires k < |subs| && |ids| == k
    ensures IdMap(subs[..k + 1], ids + [candidate]) == IdMap(subs[..k], ids)[subs[k].id := candidate]
  {
    assert subs[..k + 1][..k] == subs[..k];
    assert (ids + [candidate])[..k] == ids;
  }

  /** `node` is `sub`, unstarted, under the new ids that `idMap` gives. */
  ghost predicate Renames(idMap: map<string, string>, sub: PlanNode, node: PlanNode) {
    && node == sub.(id := node.id, dependsOn := node.dependsOn, status := Draft, error := None)
    && node.id == (if sub.id in idMap then idMap[sub.id] else sub.id)
    && |node.dependsOn| == |sub.dependsOn|
    && forall k :: 0 <= k < |node.dependsOn| ==>
         node.dependsOn[k] == if sub.dependsOn[k] in idMap then idMap[sub.dependsOn[k]] else sub.dependsOn[k]
  }

  lemma RemapRenames(idMap: map<string, string>, sub: PlanNode)
    ensures Renames(idMap, sub, RemapNode(idMap, sub))
  {
  }

  /** Gives every sub-node its new id, remapped dependencies and a fresh state. */
  method RemapAll(idMap: map<string, string>, subs: seq<PlanNode>) returns (remapped: seq<PlanNode>)
    ensures |remapped| == |subs|
    ensures forall i :: 0 <= i < |subs| ==> remapped[i] == RemapNode(idMap, subs[i])
    ensures forall i :: 0 <= i < |subs| ==> Renames(idMap, subs[i], remapped[i])
  {
    hide RemapDeps, Resolve, Renames;
    remapped := [];
    for i := 0 to |subs|
      invariant |remapped| == i
      invariant forall j :: 0 <= j < i ==> remapped[j] == RemapNode(idMap, subs[j])
      invariant forall j :: 0 <= j < i ==> Renames(idMap, subs[j], remapped[j])
    {
      var sub := subs[i];
      var newDeps := RemapDeps(idMap, sub.dependsOn);
      remapped := remapped
        + [PlanNode(Resolve(idMap, sub.id), sub.objective, newDeps, sub.assignedClaw, Draft,
                    sub.inputs, sub.outputs, sub.acceptance, None)];
      RemapRenames(idMap, sub);
    }
  }

  /** Appends the terminals the originator does not wait for yet. */
  method AppendTerminals(dependsOn: seq<string>, terminals: seq<string>) returns (r: seq<string>)
    ensures r == AddDeps(dependsOn, terminals)
  {
    r := dependsOn;
    assert terminals[0..] == terminals;
    for i := 0 to |terminals|
      invariant AddDeps(r, terminals[i..]) == AddDeps(dependsOn, terminals)
    {
      assert terminals[i..][0] == terminals[i] && terminals[i..][1..] == terminals[i + 1..];
      if terminals[i] !in r {
        r := r + [terminals[i]];
      }
    }
    assert terminals[|terminals|..] == [];
  }

  method InjectSubdag(plan: ExecutionPlan, origId: string, subs: seq<PlanNode>) returns (r: ExecutionPlan)
    ensures r == plan.(nodes := Inject(plan.nodes, origId, subs))
    ensures |r.nodes| == |plan.nodes| + |subs|
    ensures forall i :: 0 <= i < |subs| ==> CopiesSub(r.nodes, |plan.nodes|, subs, i)
    ensures if origId in Ids(plan.nodes) then
              exists k :: 0 <= k < |plan.nodes| && plan.nodes[k].id == origId && IsLast(plan.nodes, k)
                          && ResetsAt(plan.nodes, r.nodes, k)
            else plan.nodes <= r.nodes
  {
    InjectAsPromised(plan.nodes, origId, subs);
    hide CopiesSub, ResetsAt, IsLast;
    hide FreshIds, IdMap, RemapNode, TerminalIds, AllDeps, AddDeps, SetNode, FindIndex;
    var orig := FindIndex(plan.nodes, origId);
    if subs == [] {
      if orig.Some? {
        var node := plan.nodes[orig.value];
        return plan.(nodes := SetNode(plan.nodes, node.(status := Draft, error := None)));
      }
      return plan;
    }
    var idMap := AssignIds(Ids(plan.nodes), origId, subs);
    var remapped := RemapAll(idMap, subs);
    assert remapped == Remapped(Ids(plan.nodes), origId, subs);
    var terminals := TerminalIds(remapped, AllDeps(remapped));
    if orig.Some? {
      var node := plan.nodes[orig.value];
      var dependsOn := AppendTerminals(node.dependsOn, terminals);
      var nodes := SetNode(plan.nodes, node.(dependsOn := dependsOn, status := Draft, error := None));
      return plan.(nodes := nodes + remapped);
    }
    return plan.(nodes := plan.nodes + remapped);
  }

  lemma InjectAsPromised(nodes: seq<PlanNode>, origId: string, subs: seq<PlanNode>)
    ensures var after := Inject(nodes, origId, subs);
            && |after| == |nodes| + |subs|
            && (forall i :: 0 <= i < |subs| ==> CopiesSub(after, |nodes|, subs, i))
            && if origId in Ids(nodes) then
                 exists k :: 0 <= k < |nodes| && nodes[k].id == origId && IsLast(nodes, k) && ResetsAt(nodes, after, k)
               else nodes <= after
  {
    hide CopiesSub, ResetsAt, IsLast, Inject, Ids;
    InjectLength(nodes, origId, subs);
    forall i | 0 <= i < |subs| ensures CopiesSub(Inject(nodes, origId, subs), |nodes|, subs, i) {
      InjectKeepsPayload(nodes, origId, subs, i);
    }
    if origId in Ids(nodes) {
      InjectResetsOriginator(nodes, origId, subs);
    } else {
      InjectWithoutOriginator(nodes, origId, subs);
    }
  }
}
