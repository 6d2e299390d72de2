/** A planner answer with a repeated id, from a plan of one node on: two dispatches of one node, and no end. */
module TwinAnswers {
  import opened Wrappers
  import opened Models
  import opened Injection
  import opened ExecutorModel
  import opened ExecutorRuns
  import opened ExecutorTermination
  import opened ExecutorLimits
  import opened RepeatedIds

  /** The planner answers with two nodes of one id. */
  const TWINS := DependencyMissing(Planned([LEAF, LEAF]))

  // ---- the plan through the run ----

  lemma OneStarted(node: PlanNode)
    requires node.status == Draft
    ensures CanStart([node], node.id) && StartNodes([node], node.id) == [node.(status := Running)]
  {
    assert FindIndex([node], node.id) == Some(0);
  }

  lemma OneCollectedOnly(node: PlanNode)
    requires node.status == Draft && node.dependsOn == []
    ensures CollectRunnable([node]) == [node]
  {
    var m := NodeMap([node]);
    assert IsRunnable(node, m);
    assert [node][1..] == [] && Filter([], m) == [];
  }

  lemma TwinRemapped(nodes: seq<PlanNode>, x: string) returns (t: PlanNode)
    ensures Remapped(Ids(nodes), x, [LEAF, LEAF]) == [t, t]
    ensures t.id !in Ids(nodes) && t.status == Draft && t.dependsOn == []
  {
    hide FreshIds, IdMap, RemapDeps;
    var r := Remapped(Ids(nodes), x, [LEAF, LEAF]);
    t := r[0];
    assert LEAF.id in Ids([LEAF, LEAF]) by {
      assert [LEAF, LEAF][0].id == LEAF.id;
    }
    assert r == [t, t];
  }

  /** The asking node waits for the twins, of which the table knows the last. */
  lemma TwinsInjected(node: PlanNode) returns (w: PlanNode, t: PlanNode)
    ensures Inject([node], node.id, [LEAF, LEAF]) == [w, t, t] && w.id == node.id && w.status == Draft
    ensures t.id != w.id && t.id in w.dependsOn && t.status == Draft && t.dependsOn == []
  {
    t := TwinRemapped([node], node.id);
    assert node.id in Ids([node]) by {
      assert [node][0].id == node.id;
    }
    TwinTerminal(t);
    hide TerminalIds, AllDeps, Remapped, Rewired, Ids;
    var terminals := TerminalIds([t, t], AllDeps([t, t]));
    w := Rewired(node, terminals);
    RewiredWaits(node, terminals, t.id);
    RewiredId(node, terminals);
    OneReplaced(node, w);
    assert [w] + [t, t] == [w, t, t];
  }

  lemma TwinTerminal(t: PlanNode)
    requires t.dependsOn == []
    ensures t.id in TerminalIds([t, t], AllDeps([t, t]))
  {
    assert [t, t][0].id in Ids([t, t]);
  }

  lemma RewiredId(node: PlanNode, terminals: seq<string>)
    ensures Rewired(node, terminals).id == node.id
  {
  }

  lemma OneReplaced(node: PlanNode, w: PlanNode)
    requires w.id == node.id
    ensures FindIndex([node], node.id) == Some(0) && SetNode([node], w) == [w]
  {
  }

  lemma TwinTable(w: PlanNode, a: PlanNode, b: PlanNode)
    requires a.id == b.id != w.id
    ensures NodeMap([w, a, b]) == map[w.id := w, a.id := b]
    ensures FindIndex([w, a, b], a.id) == Some(2)
  {
    TwinFound(w, a, b);
    hide NodeMap, FindIndex, Ids;
    PairTable(w, a);
    NodeMapLast([w, a], b);
    assert [w, a] + [b] == [w, a, b];
    assert map[w.id := w, a.id := a][b.id := b] == map[w.id := w, a.id := b];
  }

  lemma PairTable(w: PlanNode, a: PlanNode)
    ensures NodeMap([w, a]) == map[w.id := w][a.id := a]
  {
    hide NodeMap, Ids;
    SoleMap(w);
    NodeMapLast([w], a);
    assert [w] + [a] == [w, a];
  }

  lemma TwinFound(w: PlanNode, a: PlanNode, b: PlanNode)
    requires a.id == b.id != w.id
    ensures FindIndex([w, a, b], a.id) == Some(2)
  {
    hide NodeMap;
  }

  lemma TwinsCollected(w: PlanNode, t: PlanNode)
    requires t.id != w.id && t.id in w.dependsOn && t.status == Draft && t.dependsOn == []
    ensures CollectRunnable([w, t, t]) == [t, t]
  {
    TwinTable(w, t, t);
    hide NodeMap;
    var m := NodeMap([w, t, t]);
    assert [w, t, t][1..] == [t, t] && [t, t][1..] == [t] && [t][1..] == [];
    assert !IsRunnable(w, m) && IsRunnable(t, m);
    assert Filter([], m) == [];
    assert Filter([t], m) == [t];
    assert Filter([t, t], m) == [t, t];
  }

  lemma TwinStarts(w: PlanNode, t: PlanNode, b: PlanNode)
    requires t.id == b.id != w.id && !IsTerminalStatus(b.status)
    ensures CanStart([w, t, b], t.id) && StartNodes([w, t, b], t.id) == [w, t, b.(status := Running)]
  {
    TwinTable(w, t, b);
    hide NodeMap, FindIndex;
  }

  lemma TwinFinishes(cfg: Config, counts: map<string, nat>, w: PlanNode, t: PlanNode, b: PlanNode)
    requires t.id == b.id != w.id
    ensures FinishNodes(cfg, [w, t, b], counts, t.id, Returned(None)) == [w, t, CompletedNode(b, None)]
  {
    TwinTable(w, t, b);
    TwinTable(w, t, CompletedNode(b, None));
    hide NodeMap, FindIndex;
  }

  lemma TwinShadowed(w: PlanNode, t: PlanNode, b: PlanNode)
    requires t.id == b.id != w.id && t.status == Draft && t.dependsOn == []
    requires IsTerminalStatus(b.status)
    ensures Shadowed([w, t, b], 1)
  {
    TwinTable(w, t, b);
    hide NodeMap;
  }

  // ---- the runs ----

  /** A sequence of steps with one level of nesting and answers of at most two nodes. */
  ghost predicate Path(cfg: Config, s0: State, es: seq<Event>, s: State) {
    Steps(cfg, s0, es) && AllShallow(1, 2, cfg, s0, es) && Final(cfg, s0, es) == s
  }

  lemma {:induction false} Extend(cfg: Config, s0: State, es: seq<Event>, s: State, e: Event)
    requires Path(cfg, s0, es, s) && Enabled(cfg, s, e) && Shallow(1, 2, cfg, s, e)
    ensures Path(cfg, s0, es + [e], Next(cfg, s, e))
    decreases |es|
  {
    hide Enabled, Next, Shallow;
    if es == [] {
      assert es + [e] == [e] && [e][1..] == [];
      assert Path(cfg, Next(cfg, s, e), [], Next(cfg, s, e));
    } else {
      Extend(cfg, Next(cfg, s0, es[0]), es[1..], s, e);
      assert (es + [e])[1..] == es[1..] + [e];
    }
  }

  /** `w` waits for the unstarted twins of `t`. */
  ghost predicate TwinHead(w: PlanNode, t: PlanNode) {
    t.id != w.id && t.id in w.dependsOn && t.status == Draft && t.dependsOn == []
  }

  /** A state in which the listed nodes, tasks and phase are these. */
  ghost predicate Stands(s: State, nodes: seq<PlanNode>, phase: Phase, pending: multiset<string>,
                         running: multiset<string>) {
    && s.plan.nodes == nodes && s.plan.status == Running && s.phase == phase
    && s.pending == pending && s.running == running
  }

  lemma Dispatched(cfg: Config, s: State, nodes: seq<PlanNode>)
    requires Stands(s, nodes, AtHead, multiset{}, multiset{}) && CollectRunnable(nodes) != []
    ensures Enabled(cfg, s, Dispatch)
    ensures Stands(Next(cfg, s, Dispatch), nodes, InBatch, multiset(IdList(CollectRunnable(nodes))), multiset{})
    ensures Next(cfg, s, Dispatch).depth == s.depth && Next(cfg, s, Dispatch).counts == s.counts
  {
    hide CollectRunnable;
  }

  lemma Started(cfg: Config, s: State, nodes: seq<PlanNode>, pending: multiset<string>, running: multiset<string>,
                id: string)
    requires Stands(s, nodes, InBatch, pending + multiset{id}, running) && CanStart(nodes, id)
    requires |running| < cfg.maxConcurrency
    ensures Enabled(cfg, s, Start(id))
    ensures Stands(Next(cfg, s, Start(id)), StartNodes(nodes, id), InBatch, pending, running + multiset{id})
    ensures Next(cfg, s, Start(id)).depth == s.depth && Next(cfg, s, Start(id)).counts == s.counts
  {
    hide CanStart, StartNodes;
    assert pending + multiset{id} - multiset{id} == pending;
  }

  lemma Asked(cfg: Config, s: State, nodes: seq<PlanNode>, x: string)
    requires Stands(s, nodes, InBatch, multiset{}, multiset{x}) && cfg.hasPlanner
    requires x !in s.counts && DepthOf(s.depth, x) == 0
    ensures Enabled(cfg, s, Finish(x, TWINS)) && Shallow(1, 2, cfg, s, Finish(x, TWINS))
    ensures Stands(Next(cfg, s, Finish(x, TWINS)), Inject(nodes, x, [LEAF, LEAF]), InBatch, multiset{}, multiset{})
  {
    hide Inject, NextDepth;
  }

  lemma Joined(cfg: Config, s: State, nodes: seq<PlanNode>)
    requires Stands(s, nodes, InBatch, multiset{}, multiset{})
    ensures Enabled(cfg, s, Join) && Stands(Next(cfg, s, Join), nodes, AtHead, multiset{}, multiset{})
  {
  }

  lemma BeginStands(plan: ExecutionPlan, node: PlanNode)
    requires plan.nodes == [node]
    ensures Stands(InitialState(plan, map[]), [node], AtHead, multiset{}, multiset{})
  {
  }

  lemma OthersShallow(cfg: Config, s: State, e: Event)
    requires !e.Finish? || e.outcome.Returned?
    ensures Shallow(1, 2, cfg, s, e)
  {
  }

  lemma FirstBatch(cfg: Config, plan: ExecutionPlan, node: PlanNode)
    returns (es: seq<Event>, s: State, w: PlanNode, t: PlanNode)
    requires plan.nodes == [node] && node.dependsOn == [] && node.status == Draft
    requires cfg.hasPlanner && cfg.maxConcurrency > 0
    ensures Path(cfg, InitialState(plan, map[]), es, s)
    ensures TwinHead(w, t) && Stands(s, [w, t, t], AtHead, multiset{}, multiset{})
  {
    var x := node.id;
    var s0 := InitialState(plan, map[]);
    var started := node.(status := Running);
    assert s0.counts == map[] && DepthOf(s0.depth, x) == 0;
    OneCollectedOnly(node);
    OneStarted(node);
    w, t := TwinsInjected(started);
    EmptyPath(cfg, s0);
    TwinTasks(node);
    BeginStands(plan, node);
    hide CollectRunnable, StartNodes, CanStart, Inject, Next, Enabled, Shallow, Path, DepthOf, IdList, Stands,
         TwinHead;
    var s1 := Next(cfg, s0, Dispatch);
    Dispatched(cfg, s0, [node]);
    OthersShallow(cfg, s0, Dispatch);
    Extend(cfg, s0, [], s0, Dispatch);
    var s2 := Next(cfg, s1, Start(x));
    Started(cfg, s1, [node], multiset{}, multiset{}, x);
    OthersShallow(cfg, s1, Start(x));
    Extend(cfg, s0, [] + [Dispatch], s1, Start(x));
    var s3 := Next(cfg, s2, Finish(x, TWINS));
    Asked(cfg, s2, [started], x);
    Extend(cfg, s0, [] + [Dispatch] + [Start(x)], s2, Finish(x, TWINS));
    s := Next(cfg, s3, Join);
    Joined(cfg, s3, [w, t, t]);
    OthersShallow(cfg, s3, Join);
    es := [] + [Dispatch] + [Start(x)] + [Finish(x, TWINS)];
    Extend(cfg, s0, es, s3, Join);
    es := es + [Join];
  }

  lemma EmptyPath(cfg: Config, s0: State)
    ensures Path(cfg, s0, [], s0)
  {
  }

  lemma TwinTasks(t: PlanNode)
    ensures IdList([t]) == [t.id] && IdList([t, t]) == [t.id, t.id]
    ensures multiset(IdList([t])) == multiset{} + multiset{t.id}
    ensures multiset(IdList([t, t])) == multiset{t.id} + multiset{t.id}
  {
  }

  lemma SecondBatch(cfg: Config, s0: State, es0: seq<Event>, s: State, w: PlanNode, t: PlanNode)
    returns (es: seq<Event>, s': State)
    requires Path(cfg, s0, es0, s) && cfg.maxConcurrency > 0
    requires TwinHead(w, t) && Stands(s, [w, t, t], AtHead, multiset{}, multiset{})
    ensures Path(cfg, s0, es, s')
    ensures Stands(s', [w, t, t.(status := Running)], InBatch, multiset{t.id}, multiset{t.id})
  {
    TwinsCollected(w, t);
    TwinStarts(w, t, t);
    TwinTasks(t);
    hide CollectRunnable, StartNodes, CanStart, Next, Enabled, Shallow, Path, IdList, Stands, TwinHead;
    var s1 := Next(cfg, s, Dispatch);
    Dispatched(cfg, s, [w, t, t]);
    OthersShallow(cfg, s, Dispatch);
    Extend(cfg, s0, es0, s, Dispatch);
    s' := Next(cfg, s1, Start(t.id));
    Started(cfg, s1, [w, t, t], multiset{t.id}, multiset{}, t.id);
    OthersShallow(cfg, s1, Start(t.id));
    Extend(cfg, s0, es0 + [Dispatch], s1, Start(t.id));
    es := es0 + [Dispatch] + [Start(t.id)];
  }

  /** One node's handler is dispatched twice at once. */
  lemma TwinsRunTwice(cfg: Config, plan: ExecutionPlan, node: PlanNode) returns (es: seq<Event>, y: string)
    requires plan.nodes == [node] && node.dependsOn == [] && node.status == Draft
    requires cfg.hasPlanner && cfg.maxConcurrency > 1
    ensures Steps(cfg, InitialState(plan, map[]), es)
    ensures Final(cfg, InitialState(plan, map[]), es).running == multiset{y, y}
  {
    var s, w, t;
    es, s, w, t := FirstBatch(cfg, plan, node);
    es, s := SecondBatch(cfg, InitialState(plan, map[]), es, s, w, t);
    y := t.id;
    TwinStarts(w, t, t.(status := Running));
    Extend(cfg, InitialState(plan, map[]), es, s, Start(y));
    es := es + [Start(y)];
  }

  /** One answer with a repeated id, not nested, of two nodes: a state from which no run ends is reached. */
  lemma RepeatedIdsTrap(cfg: Config, plan: ExecutionPlan, node: PlanNode) returns (es: seq<Event>)
    requires plan.nodes == [node] && node.dependsOn == [] && node.status == Draft
    requires cfg.hasPlanner && cfg.maxConcurrency > 0
    ensures Steps(cfg, InitialState(plan, map[]), es) && AllShallow(1, 2, cfg, InitialState(plan, map[]), es)
    ensures Trapped(Final(cfg, InitialState(plan, map[]), es), 1)
    ensures var s := Final(cfg, InitialState(plan, map[]), es);
            forall more :: Steps(cfg, s, more) ==> Final(cfg, s, more).phase != Finished
  {
    var s, w, t;
    es, s, w, t := FirstBatch(cfg, plan, node);
    es, s := SecondBatch(cfg, InitialState(plan, map[]), es, s, w, t);
    hide Steps, AllShallow, Final, Next, Enabled, Shallow, Stands, Trapped, TwinHead;
    TwinDone(cfg, s, w, t);
    Extend(cfg, InitialState(plan, map[]), es, s, Finish(t.id, Returned(None)));
    es := es + [Finish(t.id, Returned(None))];
    s := Final(cfg, InitialState(plan, map[]), es);
    forall more | Steps(cfg, s, more) ensures Final(cfg, s, more).phase != Finished {
      TrappedNeverEnds(cfg, s, 1, more);
    }
  }

  /** When the table's twin completes, the other one is shadowed. */
  lemma TwinDone(cfg: Config, s: State, w: PlanNode, t: PlanNode)
    requires TwinHead(w, t)
    requires Stands(s, [w, t, t.(status := Running)], InBatch, multiset{t.id}, multiset{t.id})
    ensures Enabled(cfg, s, Finish(t.id, Returned(None))) && Shallow(1, 2, cfg, s, Finish(t.id, Returned(None)))
    ensures Trapped(Next(cfg, s, Finish(t.id, Returned(None))), 1)
  {
    var b := t.(status := Running);
    TwinFinishes(cfg, s.counts, w, t, b);
    TwinShadowed(w, t, CompletedNode(b, None));
    FinishedFields(cfg, s, t.id, Returned(None));
    hide FinishNodes, FinishCounts, NextDepth, Next, Shadowed;
    assert multiset{t.id} - multiset{t.id} == multiset{};
  }
}
