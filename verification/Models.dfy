/** The plan data model: statuses, nodes, plans, and lookup by node id. */
module Models {
  import opened Wrappers
  import opened Dag

  datatype PlanStatus = Draft | Ready | Running | Completed | Failed | Cancelled | NeedsTool

  /** Why a node carries an error; stands for the source's error text. */
  datatype NodeError =
    | HandlerError(message: string)
    | UnknownCapabilityError(message: string)
    | NoSubdagPlanner
    | InjectionLoopGuard
    | SubdagPlannerError(message: string)
    | MissingTool(capability: string)

  /** Values of `inputs` are kept as their serialized text. */
  datatype PlanNode = PlanNode(
    id: string,
    objective: string,
    dependsOn: seq<string>,
    assignedClaw: string,
    status: PlanStatus,
    inputs: map<string, string>,
    outputs: seq<string>,
    acceptance: seq<string>,
    error: Option<NodeError>)

  datatype ExecutionPlan = ExecutionPlan(planId: string, nodes: seq<PlanNode>, status: PlanStatus)

  function Ids(nodes: seq<PlanNode>): set<string> {
    set i | 0 <= i < |nodes| :: nodes[i].id
  }

  function IdList(nodes: seq<PlanNode>): (ids: seq<string>)
    ensures |ids| == |nodes|
    ensures forall i :: 0 <= i < |ids| ==> ids[i] == nodes[i].id
    ensures Elems(ids) == Ids(nodes)
  {
    var ids := seq(|nodes|, i requires 0 <= i < |nodes| => nodes[i].id);
    assert forall i :: 0 <= i < |nodes| ==> nodes[i].id == ids[i];
    ids
  }

  ghost predicate DistinctIds(nodes: seq<PlanNode>) {
    forall i, j :: 0 <= i < j < |nodes| ==> nodes[i].id != nodes[j].id
  }

  /** The lookup table by id; as with a dict comprehension, the last of two equal ids wins. */
  function NodeMap(nodes: seq<PlanNode>): (m: map<string, PlanNode>)
    ensures m.Keys == Ids(nodes)
    ensures forall id :: id in m ==> m[id] in nodes && m[id].id == id
  {
    if nodes == [] then map[]
    else
      var last := nodes[|nodes| - 1];
      assert nodes == nodes[..|nodes| - 1] + [last];
      NodeMap(nodes[..|nodes| - 1])[last.id := last]
  }

  /** The dependency graph a lookup table describes. */
  function GraphOf(m: map<string, PlanNode>): Graph<string> {
    map id | id in m :: Elems(m[id].dependsOn)
  }

  /** The dependency graph of a plan's nodes. */
  function PlanGraph(nodes: seq<PlanNode>): Graph<string> {
    GraphOf(NodeMap(nodes))
  }

  /** Distinct ids, every dependency listed, and no cycle. */
  ghost predicate WellFormed(nodes: seq<PlanNode>) {
    DistinctIds(nodes) && Closed(PlanGraph(nodes)) && Acyclic(PlanGraph(nodes))
  }

  lemma {:induction false} NodeMapAt(nodes: seq<PlanNode>, i: nat)
    requires DistinctIds(nodes) && i < |nodes|
    ensures nodes[i].id in NodeMap(nodes) && NodeMap(nodes)[nodes[i].id] == nodes[i]
  {
    if i < |nodes| - 1 {
      NodeMapAt(nodes[..|nodes| - 1], i);
    }
  }

  /** Position of the node that the lookup table gives for `id`, if any. */
  function FindIndex(nodes: seq<PlanNode>, id: string): (r: Option<nat>)
    ensures r.None? <==> id !in Ids(nodes)
    ensures r.Some? ==> r.value < |nodes| && nodes[r.value].id == id && nodes[r.value] == NodeMap(nodes)[id]
  {
    if nodes == [] then None
    else
      var k := |nodes| - 1;
      assert nodes == nodes[..k] + [nodes[k]];
      if nodes[k].id == id then Some(k) else FindIndex(nodes[..k], id)
  }

  /** Overwrites the node that the lookup table gives for `node.id`, in place. */
  function SetNode(nodes: seq<PlanNode>, node: PlanNode): (r: seq<PlanNode>)
    ensures |r| == |nodes|
    ensures Ids(r) == Ids(nodes)
  {
    var i := FindIndex(nodes, node.id);
    if i.None? then nodes
    else
      var r := nodes[i.value := node];
      assert Ids(r) == Ids(nodes) by {
        forall id | id in Ids(nodes) ensures id in Ids(r) {
          var j :| 0 <= j < |nodes| && nodes[j].id == id;
          assert r[j].id == id;
        }
        forall id | id in Ids(r) ensures id in Ids(nodes) {
          var j :| 0 <= j < |r| && r[j].id == id;
          assert nodes[j].id == id;
        }
      }
      r
  }

  lemma ReplaceDistinct(nodes: seq<PlanNode>, k: nat, node: PlanNode)
    requires DistinctIds(nodes) && k < |nodes| && nodes[k].id == node.id
    ensures DistinctIds(nodes[k := node])
  {
  }

  lemma NodeMapLast(nodes: seq<PlanNode>, last: PlanNode)
    ensures NodeMap(nodes + [last]) == NodeMap(nodes)[last.id := last]
  {
    assert (nodes + [last])[..|nodes|] == nodes;
  }

  lemma SetNodeLast(nodes: seq<PlanNode>, last: PlanNode, node: PlanNode)
    ensures SetNode(nodes + [last], node)
         == if last.id == node.id then nodes + [node] else SetNode(nodes, node) + [last]
  {
    hide Ids, NodeMap;
    assert (nodes + [last])[..|nodes|] == nodes;
  }

  lemma Swap<K, V>(m: map<K, V>, a: K, x: V, b: K, y: V)
    ensures a != b ==> m[a := x][b := y] == m[b := y][a := x]
    ensures a == b ==> m[a := x][b := y] == m[b := y]
  {
  }

  lemma SetNodeMapLast(nodes: seq<PlanNode>, last: PlanNode, node: PlanNode)
    requires last.id == node.id || NodeMap(SetNode(nodes, node)) == NodeMap(nodes)[node.id := node]
    ensures NodeMap(SetNode(nodes + [last], node)) == NodeMap(nodes + [last])[node.id := node]
  {
    hide NodeMap, SetNode, Ids;
    SetNodeLast(nodes, last, node);
    NodeMapLast(nodes, last);
    NodeMapLast(nodes, node);
    NodeMapLast(SetNode(nodes, node), last);
    Swap(NodeMap(nodes), node.id, node, last.id, last);
    Swap(NodeMap(nodes), last.id, last, node.id, node);
  }

  /** Changing a found node in place changes the table at its id only, also when ids repeat. */
  lemma {:induction false} SetNodeMap(nodes: seq<PlanNode>, node: PlanNode)
    requires node.id in Ids(nodes)
    ensures NodeMap(SetNode(nodes, node)) == NodeMap(nodes)[node.id := node]
    decreases |nodes|
  {
    hide NodeMap, SetNode;
    var rest, last := nodes[..|nodes| - 1], nodes[|nodes| - 1];
    assert nodes == rest + [last];
    IdsOfLast(rest, last);
    hide Ids;
    if last.id != node.id {
      SetNodeMap(rest, node);
    }
    SetNodeMapLast(rest, last, node);
  }

  lemma SetNodeDistinct(nodes: seq<PlanNode>, node: PlanNode)
    requires DistinctIds(nodes) && node.id in Ids(nodes)
    ensures DistinctIds(SetNode(nodes, node))
  {
    ReplaceDistinct(nodes, FindIndex(nodes, node.id).value, node);
  }

  lemma IdsOfLast(nodes: seq<PlanNode>, last: PlanNode)
    ensures Ids(nodes + [last]) == Ids(nodes) + {last.id}
  {
    IdsAppend(nodes, [last]);
    assert [last][0].id in Ids([last]);
  }

  lemma EmptyMap()
    ensures NodeMap([]) == map[]
  {
  }

  lemma UnionUpdate<K, V>(a: map<K, V>, b: map<K, V>, k: K, v: V)
    ensures (a + b)[k := v] == a + b[k := v]
  {
  }

  /** The later list wins where ids repeat. */
  lemma {:induction false} AppendMap(a: seq<PlanNode>, b: seq<PlanNode>)
    ensures NodeMap(a + b) == NodeMap(a) + NodeMap(b)
    decreases |b|
  {
    hide NodeMap, Ids;
    if b == [] {
      assert a + b == a;
      EmptyMap();
    } else {
      var rest, last := b[..|b| - 1], b[|b| - 1];
      assert b == rest + [last] && a + b == (a + rest) + [last];
      AppendMap(a, rest);
      NodeMapLast(rest, last);
      NodeMapLast(a + rest, last);
      UnionUpdate(NodeMap(a), NodeMap(rest), last.id, last);
    }
  }

  lemma AppendDistinctIds(a: seq<PlanNode>, b: seq<PlanNode>)
    requires DistinctIds(a) && DistinctIds(b) && Ids(a) !! Ids(b)
    ensures DistinctIds(a + b)
  {
    forall i, j | 0 <= i < |a| && 0 <= j < |b| ensures a[i].id != b[j].id {
      assert a[i].id in Ids(a) && b[j].id in Ids(b);
    }
  }

  lemma IdsAppend(a: seq<PlanNode>, b: seq<PlanNode>)
    ensures Ids(a + b) == Ids(a) + Ids(b)
  {
    forall id | id in Ids(a) + Ids(b) ensures id in Ids(a + b) {
      if id in Ids(a) {
        var i :| 0 <= i < |a| && a[i].id == id;
        assert (a + b)[i] == a[i];
      } else {
        var i :| 0 <= i < |b| && b[i].id == id;
        assert (a + b)[|a| + i] == b[i];
      }
    }
    forall id | id in Ids(a + b) ensures id in Ids(a) + Ids(b) {
      var i :| 0 <= i < |a + b| && (a + b)[i].id == id;
      if i < |a| { assert a[i].id == id; } else { assert b[i - |a|].id == id; }
    }
  }

  /** No later node has the id of the i-th. */
  predicate IsLast(nodes: seq<PlanNode>, i: nat)
    requires i < |nodes|
  {
    forall j :: i < j < |nodes| ==> nodes[j].id != nodes[i].id
  }

  lemma {:induction false} FoundIsLast(nodes: seq<PlanNode>, id: string)
    requires id in Ids(nodes)
    ensures FindIndex(nodes, id).Some? && IsLast(nodes, FindIndex(nodes, id).value)
    decreases |nodes|
  {
    hide NodeMap;
    var k := |nodes| - 1;
    assert nodes == nodes[..k] + [nodes[k]];
    IdsOfLast(nodes[..k], nodes[k]);
    if nodes[k].id != id {
      FoundIsLast(nodes[..k], id);
    }
  }
}
