/**
 Sub-DAG injection: fresh ids for the planned prerequisites, remapped edges, and the
 originating node rewired to wait for the prerequisites nothing else waits for.
 */
module Injection {
  import opened Wrappers
  import opened Dag
  import opened Text
  import opened Models

  // ---- fresh ids ----

  function Candidate(base: string, suffix: nat): string {
    if suffix == 0 then base else base + "-" + Decimal(suffix)
  }

  lemma CandidateInjective(base: string, j: nat, k: nat)
    ensures Candidate(base, j) == Candidate(base, k) ==> j == k
  {
    if Candidate(base, j) == Candidate(base, k) {
      var a, b := Candidate(base, j), Candidate(base, k);
      if j > 0 && k > 0 {
        assert a[|base| + 1..] == Decimal(j) && b[|base| + 1..] == Decimal(k);
        ParseInvertsDecimal(j);
        ParseInvertsDecimal(k);
      }
    }
  }

  /** Taken ids that are not among the first `suffix` candidates. */
  ghost function Untried(existing: set<string>, base: string, suffix: nat): set<string> {
    set id | id in existing && forall j :: 0 <= j < suffix ==> Candidate(base, j) != id
  }

  lemma TryingShrinks(existing: set<string>, base: string, suffix: nat)
    requires Candidate(base, suffix) in existing
    ensures Untried(existing, base, suffix + 1) < Untried(existing, base, suffix)
  {
    forall j | 0 <= j < suffix ensures Candidate(base, j) != Candidate(base, suffix) {
      CandidateInjective(base, j, suffix);
    }
    assert Candidate(base, suffix) in Untried(existing, base, suffix);
  }

  /** The first candidate from `suffix` on that is not taken; the search ends since `existing` is finite. */
  function FreshFrom(existing: set<string>, base: string, suffix: nat): (k: nat)
    ensures suffix <= k && Candidate(base, k) !in existing
    ensures forall j :: suffix <= j < k ==> Candidate(base, j) in existing
    decreases Untried(existing, base, suffix)
  {
    if Candidate(base, suffix) !in existing then suffix
    else
      TryingShrinks(existing, base, suffix);
      FreshFrom(existing, base, suffix + 1)
  }

  function FreshId(existing: set<string>, base: string): (id: string)
    ensures id !in existing
  {
    Candidate(base, FreshFrom(existing, base, 0))
  }

  function BaseId(origId: string, k: nat): string {
    "injected-" + origId + "-" + Decimal(k)
  }

  /** Ids for `count` injected nodes, each fresh with respect to the plan and the earlier ones. */
  function FreshIds(existing: set<string>, origId: string, count: nat): (ids: seq<string>)
    ensures |ids| == count
    ensures Distinct(ids)
    ensures Elems(ids) !! existing
  {
    if count == 0 then []
    else
      var before := FreshIds(existing, origId, count - 1);
      before + [FreshId(existing + Elems(before), BaseId(origId, count - 1))]
  }

  // ---- remapping ----

  /** New id of each sub-node id; a repeated id keeps the last. */
  function IdMap(subs: seq<PlanNode>, ids: seq<string>): (m: map<string, string>)
    requires |subs| == |ids|
    ensures m.Keys == Ids(subs)
    ensures forall id :: id in m ==> m[id] in Elems(ids)
  {
    if subs == [] then map[]
    else
      var k := |subs| - 1;
      assert forall i :: 0 <= i < k ==> subs[i] == subs[..k][i];
      IdMap(subs[..k], ids[..k])[subs[k].id := ids[k]]
  }

  function Resolve(m: map<string, string>, d: string): string {
    if d in m then m[d] else d
  }

  function RemapDeps(m: map<string, string>, deps: seq<string>): (r: seq<string>)
    ensures |r| == |deps|
    ensures forall i :: 0 <= i < |r| ==> r[i] == Resolve(m, deps[i])
  {
    seq(|deps|, i requires 0 <= i < |deps| => Resolve(m, deps[i]))
  }

  function RemapNode(m: map<string, string>, sub: PlanNode): PlanNode {
    PlanNode(Resolve(m, sub.id), sub.objective, RemapDeps(m, sub.dependsOn), sub.assignedClaw, Draft,
             sub.inputs, sub.outputs, sub.acceptance, None)
  }

  function Remapped(existing: set<string>, origId: string, subs: seq<PlanNode>): (r: seq<PlanNode>)
    ensures |r| == |subs|
    ensures forall i :: 0 <= i < |r| ==>
      r[i] == RemapNode(IdMap(subs, FreshIds(existing, origId, |subs|)), subs[i])
  {
    var m := IdMap(subs, FreshIds(existing, origId, |subs|));
    seq(|subs|, i requires 0 <= i < |subs| => RemapNode(m, subs[i]))
  }

  // ---- wiring ----

  /** Every id some node of the list depends on. */
  function AllDeps(nodes: seq<PlanNode>): (r: set<string>)
    ensures forall d :: d in r <==> exists i :: 0 <= i < |nodes| && d in nodes[i].dependsOn
  {
    set i, d | 0 <= i < |nodes| && d in nodes[i].dependsOn :: d
  }

  /** Ids of the nodes no other node of the list depends on, in list order. */
  function TerminalIds(nodes: seq<PlanNode>, deps: set<string>): (r: seq<string>)
    ensures forall t :: t in r <==> t in Ids(nodes) && t !in deps
  {
    if nodes == [] then []
    else
      var k := |nodes| - 1;
      assert nodes == nodes[..k] + [nodes[k]];
      IdsAppend(nodes[..k], [nodes[k]]);
      assert Ids([nodes[k]]) == {nodes[k].id} by { assert [nodes[k]][0].id == nodes[k].id; }
      TerminalIds(nodes[..k], deps) + (if nodes[k].id !in deps then [nodes[k].id] else [])
  }

  /** Appends the ids not yet present. */
  function AddDeps(deps: seq<string>, more: seq<string>): (r: seq<string>)
    ensures deps <= r
    ensures Elems(r) == Elems(deps) + Elems(more)
    decreases |more|
  {
    if more == [] then deps
    else
      assert Elems(more) == {more[0]} + Elems(more[1..]);
      AddDeps(if more[0] in deps then deps else deps + [more[0]], more[1..])
  }

  function ResetNode(node: PlanNode): PlanNode {
    node.(status := Draft, error := None)
  }

  /** The plan's node list after injecting `subs` on behalf of `origId`. */
  function Inject(nodes: seq<PlanNode>, origId: string, subs: seq<PlanNode>): seq<PlanNode> {
    var orig := FindIndex(nodes, origId);
    if subs == [] then
      if orig.None? then nodes else SetNode(nodes, ResetNode(nodes[orig.value]))
    else
      var injected := Remapped(Ids(nodes), origId, subs);
      var terminals := TerminalIds(injected, AllDeps(injected));
      if orig.None? then nodes + injected
      else SetNode(nodes, Rewired(nodes[orig.value], terminals)) + injected
  }

  function Rewired(node: PlanNode, terminals: seq<string>): PlanNode {
    ResetNode(node).(dependsOn := AddDeps(node.dependsOn, terminals))
  }
}
