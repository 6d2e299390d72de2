/**
 What the assumptions about injected sub-DAGs are for: with an unsafe one the executor can end a
 run in RUNNING, and without a bound on nesting no number bounds the dispatches of a run.
 */
module ExecutorLimits {
  import opened Wrappers
  import opened Dag
  import opened Models
  import opened Injection
  import opened InjectionTheorems
  import opened ExecutorModel
  import opened ExecutorSafety
  import opened ExecutorRuns
  import opened ExecutorTermination

  // ---- injecting one node ----

  function SoleId(nodes: seq<PlanNode>, origId: string): string {
    FreshId(Ids(nodes), BaseId(origId, 0))
  }

  /** The injected form of a single sub-node. */
  function SoleNode(nodes: seq<PlanNode>, origId: string, sub: PlanNode): PlanNode {
    RemapNode(map[sub.id := SoleId(nodes, origId)], sub)
  }

  lemma SoleRemapped(nodes: seq<PlanNode>, origId: string, sub: PlanNode)
    ensures Remapped(Ids(nodes), origId, [sub]) == [SoleNode(nodes, origId, sub)]
    ensures SoleNode(nodes, origId, sub).id == SoleId(nodes, origId) && SoleId(nodes, origId) !in Ids(nodes)
  {
    hide RemapNode, FreshId, BaseId;
    var ids := FreshIds(Ids(nodes), origId, 1);
    assert FreshIds(Ids(nodes), origId, 0) == [];
    assert Elems<string>([]) == {} && Ids(nodes) + {} == Ids(nodes);
    assert ids == [SoleId(nodes, origId)];
    SoleIdMap(sub, ids[0]);
    SoleNodeId(nodes, origId, sub);
  }

  lemma SoleNodeId(nodes: seq<PlanNode>, origId: string, sub: PlanNode)
    ensures SoleNode(nodes, origId, sub).id == SoleId(nodes, origId)
  {
  }

  lemma SoleIdMap(sub: PlanNode, id: string)
    ensures IdMap([sub], [id]) == map[sub.id := id]
  {
    assert IdMap([sub][..0], [id][..0]) == map[];
  }

  /** The table after injecting a node that does not wait for itself: the originator waits for it. */
  ghost predicate SoleInjected(m: map<string, PlanNode>, m': map<string, PlanNode>, origId: string, y: PlanNode) {
    && y.id !in m && m'.Keys == m.Keys + {y.id} && m'[y.id] == y
    && (forall n :: n in m && n != origId ==> m'[n] == m[n])
    && origId in m && m'[origId].status == Draft && y.id in m'[origId].dependsOn
  }

  lemma SoleTable(nodes: seq<PlanNode>, origId: string, sub: PlanNode)
    requires DistinctIds(nodes) && origId in Ids(nodes)
    requires SoleId(nodes, origId) !in SoleNode(nodes, origId, sub).dependsOn
    ensures DistinctIds(Inject(nodes, origId, [sub]))
    ensures SoleInjected(NodeMap(nodes), NodeMap(Inject(nodes, origId, [sub])), origId, SoleNode(nodes, origId, sub))
  {
    SoleRemapped(nodes, origId, sub);
    InjectedMap(nodes, origId, [sub]);
    hide Inject, Remapped, SoleNode, SoleId, RemapNode, Rewired, DistinctIds, SoleInjected, NodeMap, TerminalIds,
         AllDeps, Ids;
    var y := SoleNode(nodes, origId, sub);
    SoleTerminal(y);
    SoleMap(y);
    RewiredTable(NodeMap(nodes), origId, TerminalIds([y], AllDeps([y])), y);
  }

  lemma RewiredTable(m: map<string, PlanNode>, origId: string, terminals: seq<string>, y: PlanNode)
    requires origId in m && y.id !in m && y.id in terminals
    ensures SoleInjected(m, m[origId := Rewired(m[origId], terminals)] + map[y.id := y], origId, y)
  {
    hide Rewired;
    RewiredWaits(m[origId], terminals, y.id);
  }

  lemma SoleTerminal(y: PlanNode)
    requires y.id !in y.dependsOn
    ensures y.id in TerminalIds([y], AllDeps([y]))
  {
    assert [y][0].id in Ids([y]);
  }

  lemma SoleMap(y: PlanNode)
    ensures NodeMap([y]) == map[y.id := y]
  {
    assert NodeMap([y][..0]) == map[];
  }

  lemma RewiredWaits(node: PlanNode, terminals: seq<string>, t: string)
    requires t in terminals
    ensures Rewired(node, terminals).status == Draft && t in Rewired(node, terminals).dependsOn
  {
    assert t in Elems(terminals);
    assert t in Elems(AddDeps(node.dependsOn, terminals));
  }

  // ---- an unsafe injection can end a run in RUNNING ----

  lemma NothingLeftToDo(nodes: seq<PlanNode>)
    requires DistinctIds(nodes)
    requires forall n :: n in NodeMap(nodes) ==> NodeMap(nodes)[n].status in {Draft, Completed}
    requires forall n :: n in NodeMap(nodes) ==> !IsRunnable(NodeMap(nodes)[n], NodeMap(nodes))
    requires exists n :: n in NodeMap(nodes) && NodeMap(nodes)[n].status == Draft
    ensures CollectRunnable(nodes) == [] && CountInFlight(nodes) == 0 && DerivePlanStatus(nodes) == Running
  {
    var m := NodeMap(nodes);
    var x :| x in m && m[x].status == Draft;
    ListedInTable(nodes);
    hide IsRunnable, NodeMap, Filter, CountInFlight, DerivePlanStatus;
    assert m[x] in nodes;
    NoneCollected(nodes, m);
    DraftsLeft(nodes);
  }

  lemma ListedInTable(nodes: seq<PlanNode>)
    requires DistinctIds(nodes)
    ensures forall n :: n in nodes ==> n.id in NodeMap(nodes) && NodeMap(nodes)[n.id] == n
  {
    forall i | 0 <= i < |nodes| ensures nodes[i].id in NodeMap(nodes) && NodeMap(nodes)[nodes[i].id] == nodes[i] {
      NodeMapAt(nodes, i);
    }
  }

  lemma {:induction false} NoneCollected(nodes: seq<PlanNode>, m: map<string, PlanNode>)
    requires forall n :: n in nodes ==> !IsRunnable(n, m)
    ensures Filter(nodes, m) == []
  {
    hide IsRunnable;
    if nodes != [] {
      assert nodes[0] in nodes;
      NoneCollected(nodes[1..], m);
    }
  }

  lemma DraftsLeft(nodes: seq<PlanNode>)
    requires forall n :: n in nodes ==> n.status in {Draft, Completed}
    requires exists n :: n in nodes && n.status == Draft
    ensures CountInFlight(nodes) == 0 && DerivePlanStatus(nodes) == Running
  {
    var n :| n in nodes && n.status == Draft;
    assert Draft in Statuses(nodes);
  }

  /**
   The last node to run asks for a prerequisite, and the one planned for it waits for the asking
   node or for an unknown node: the run then stops with nothing failed and status RUNNING.
   */
  lemma UnsafeAnswerStalls(cfg: Config, s: State, id: string, sub: PlanNode, d: string)
    requires Inv(cfg, s) && s.phase == InBatch && s.pending == multiset{} && s.running == multiset{id}
    requires forall n :: n in View(s) && n != id ==> View(s)[n].status == Completed
    requires Injects(cfg, s.counts, id, DependencyMissing(Planned([sub])))
    requires sub.id !in sub.dependsOn && SoleId(s.plan.nodes, id) !in sub.dependsOn
    requires d in sub.dependsOn && (d == id || d !in Ids(s.plan.nodes))
    ensures var o := DependencyMissing(Planned([sub]));
            var joined := Next(cfg, Next(cfg, s, Finish(id, o)), Join);
            && Enabled(cfg, s, Finish(id, o)) && Enabled(cfg, Next(cfg, s, Finish(id, o)), Join)
            && Enabled(cfg, joined, Stop) && Next(cfg, joined, Stop).plan.status == Running
  {
    var nodes := s.plan.nodes;
    var after := Inject(nodes, id, [sub]);
    assert DistinctIds(nodes) && id in Ids(nodes);
    RemapKeepsOthers(sub, SoleId(nodes, id));
    SoleTable(nodes, id, sub);
    SoleRemapped(nodes, id, sub);
    NothingRunnable(View(s), NodeMap(after), id, SoleNode(nodes, id, sub), d);
    NothingLeftToDo(after);
  }

  lemma RemapKeepsOthers(sub: PlanNode, id: string)
    requires sub.id !in sub.dependsOn
    ensures RemapNode(map[sub.id := id], sub).dependsOn == sub.dependsOn
  {
  }

  lemma NothingRunnable(m: map<string, PlanNode>, m': map<string, PlanNode>, id: string, y: PlanNode, d: string)
    requires SoleInjected(m, m', id, y) && y.status == Draft
    requires forall n :: n in m && n != id ==> m[n].status == Completed
    requires d in y.dependsOn && d != y.id && (d == id || d !in m)
    ensures forall n :: n in m' ==> m'[n].status in {Draft, Completed} && !IsRunnable(m'[n], m')
    ensures y.id in m' && m'[y.id].status == Draft
  {
    assert m'[y.id].status != Completed && (d in m' ==> m'[d].status != Completed);
  }

  // ---- without a bound on nesting, nothing bounds a run ----

  /** A prerequisite with no dependencies of its own. */
  const LEAF := PlanNode("leaf", "", [], "", Draft, map[], [], [], None)

  /** The handler asks for a prerequisite and the planner answers with one leaf. */
  const ASKS := DependencyMissing(Planned([LEAF]))

  /** Between batches, `x` is the only runnable node and has asked for nothing yet. */
  ghost predicate Lonely(cfg: Config, s: State, x: string) {
    && Inv(cfg, s) && WellFormed(s.plan.nodes) && s.phase == AtHead
    && s.counts.Keys <= Ids(s.plan.nodes) && x !in s.counts
    && OnlyRunnable(View(s), x)
  }

  ghost predicate OnlyRunnable(m: map<string, PlanNode>, x: string) {
    x in m && forall n :: n in m ==> (IsRunnable(m[n], m) <==> n == x)
  }

  lemma LeafIsSafe(nodes: seq<PlanNode>, x: string)
    ensures SafeInjection(nodes, x, [LEAF])
  {
    SoleMap(LEAF);
    assert Elems(LEAF.dependsOn) == {};
    RankedIsAcyclic(PlanGraph([LEAF]), map[LEAF.id := 0]);
    hide SafeInjection, PlanGraph, Acyclic;
    SelfContainedIsSafe(nodes, x, [LEAF]);
  }

  /** The only runnable node makes the whole batch. */
  lemma LonelyDispatch(cfg: Config, s: State, x: string)
    requires Lonely(cfg, s, x)
    ensures Enabled(cfg, s, Dispatch) && Next(cfg, s, Dispatch).pending == multiset{x}
  {
    assert DistinctIds(s.plan.nodes) && OnlyRunnable(View(s), x) && s.phase == AtHead;
    hide Inv, WellFormed, IsRunnable, NodeMap, CollectRunnable, DistinctIds, Once, Members, Ids, OnlyRunnable,
         Lonely;
    LonelyCollected(s.plan.nodes, x);
    BatchMembers(s.plan.nodes);
    OneCollected(CollectRunnable(s.plan.nodes), View(s)[x]);
    OneTask(multiset(IdList(CollectRunnable(s.plan.nodes))), x);
    LonelyStatus(cfg, s, x);
    hide Enabled, Next, IdList;
    DispatchesBatch(cfg, s);
  }

  lemma DispatchesBatch(cfg: Config, s: State)
    requires s.phase == AtHead && s.plan.status == Running && CollectRunnable(s.plan.nodes) != []
    ensures Enabled(cfg, s, Dispatch)
    ensures Next(cfg, s, Dispatch).pending == multiset(IdList(CollectRunnable(s.plan.nodes)))
  {
    hide CollectRunnable;
  }

  lemma LonelyStatus(cfg: Config, s: State, x: string)
    requires Lonely(cfg, s, x)
    ensures s.plan.status == Running
  {
    hide WellFormed, OnlyRunnable, DistinctIds, CompletedClosed, RunningHeld, PendingRunnable, Once, Members;
  }

  lemma LonelyCollected(nodes: seq<PlanNode>, x: string)
    requires DistinctIds(nodes) && OnlyRunnable(NodeMap(nodes), x)
    ensures x in NodeMap(nodes)
    ensures forall n :: n in CollectRunnable(nodes) <==> n == NodeMap(nodes)[x]
  {
    hide IsRunnable, NodeMap, DistinctIds, Filter;
    ListedInTable(nodes);
  }

  lemma OneTask(tasks: multiset<string>, x: string)
    requires Once(tasks) && Members(tasks) == {x}
    ensures tasks == multiset{x}
  {
    assert x in Members(tasks);
    assert forall id :: id in tasks ==> id in Members(tasks);
  }

  lemma OneCollected(r: seq<PlanNode>, x: PlanNode)
    requires forall n :: n in r <==> n == x
    ensures r != [] && Ids(r) == {x.id}
  {
    assert x in r;
    var k :| 0 <= k < |r| && r[k] == x;
    assert forall i :: 0 <= i < |r| ==> r[i] in r;
    assert r[k].id in Ids(r);
  }

  /** `x` is the whole batch, running, and has asked for nothing yet. */
  ghost predicate Asking(cfg: Config, s: State, x: string) {
    && Inv(cfg, s) && WellFormed(s.plan.nodes)
    && s.phase == InBatch && s.pending == multiset{} && s.running == multiset{x}
    && s.counts.Keys <= Ids(s.plan.nodes) && x !in s.counts
  }

  /** `x` is dispatched and started. */
  lemma LonelyStart(cfg: Config, s: State, x: string)
    requires Lonely(cfg, s, x) && cfg.maxConcurrency > 0
    ensures var s1 := Next(cfg, s, Dispatch);
            && Enabled(cfg, s, Dispatch) && Enabled(cfg, s1, Start(x))
            && Asking(cfg, Next(cfg, s1, Start(x)), x)
            && View(Next(cfg, s1, Start(x))) == View(s)[x := View(s)[x].(status := Running)]
  {
    var s1 := Next(cfg, s, Dispatch);
    hide WellFormed, DistinctIds, CompletedClosed, RunningHeld, PendingRunnable, OnlyRunnable, CollectRunnable,
         NodeMap, StartNodes, CanStart, OthersKept, IsRunnable, Ids, PlanGraph;
    LonelyDispatch(cfg, s, x);
    StepKeepsInv(cfg, s, Dispatch);
    StepKeepsInv(cfg, s1, Start(x));
    StepKeepsWellFormed(cfg, s1, Start(x));
    StartMarksRunning(cfg, s1, x);
    StartKeepsIds(s.plan.nodes, x);
  }

  lemma StartKeepsIds(nodes: seq<PlanNode>, x: string)
    ensures Ids(StartNodes(nodes, x)) == Ids(nodes)
  {
    hide Ids;
  }

  lemma AskInjects(cfg: Config, s: State, x: string)
    requires Asking(cfg, s, x) && cfg.hasPlanner
    ensures Enabled(cfg, s, Finish(x, ASKS)) && Injects(cfg, s.counts, x, ASKS)
    ensures Benign(cfg, s, Finish(x, ASKS)) && Safe(cfg, s, Finish(x, ASKS))
    ensures DistinctIds(s.plan.nodes) && x in Ids(s.plan.nodes)
  {
    LeafIsSafe(s.plan.nodes, x);
    hide SafeInjection, Acyclic, Closed, CompletedClosed;
  }

  lemma SoleLeaf(nodes: seq<PlanNode>, x: string)
    ensures var y := SoleNode(nodes, x, LEAF); y.status == Draft && y.dependsOn == []
  {
    hide SoleId;
  }

  /** The running node asks, and a leaf is injected for it. */
  lemma LonelyAsks(cfg: Config, s: State, x: string)
    requires Asking(cfg, s, x) && cfg.hasPlanner
    ensures Enabled(cfg, s, Finish(x, ASKS))
    ensures Benign(cfg, s, Finish(x, ASKS)) && Safe(cfg, s, Finish(x, ASKS))
    ensures var s' := Next(cfg, s, Finish(x, ASKS));
            var y := SoleNode(s.plan.nodes, x, LEAF);
            && Inv(cfg, s') && WellFormed(s'.plan.nodes)
            && s'.phase == InBatch && s'.pending == multiset{} && s'.running == multiset{}
            && SoleInjected(View(s), View(s'), x, y) && s'.counts.Keys == s.counts.Keys + {x}
            && y.status == Draft && y.dependsOn == []
  {
    AskInjects(cfg, s, x);
    AfterAsking(cfg, s, x);
    assert Inv(cfg, s) && WellFormed(s.plan.nodes);
    hide Inv, WellFormed, Benign, Safe, NodeMap, SoleInjected, Inject, SoleNode, SoleId, DistinctIds, Ids, Next,
         Asking, Enabled, Injects;
    StepKeepsInv(cfg, s, Finish(x, ASKS));
    StepKeepsWellFormed(cfg, s, Finish(x, ASKS));
    SoleLeaf(s.plan.nodes, x);
    SoleTable(s.plan.nodes, x, LEAF);
  }

  lemma AfterAsking(cfg: Config, s: State, x: string)
    requires Asking(cfg, s, x) && Injects(cfg, s.counts, x, ASKS)
    ensures var s' := Next(cfg, s, Finish(x, ASKS));
            && s'.plan.nodes == Inject(s.plan.nodes, x, [LEAF]) && s'.counts.Keys == s.counts.Keys + {x}
            && s'.phase == InBatch && s'.pending == multiset{} && s'.running == multiset{}
  {
    hide Inv, Inject, NextDepth, Ids;
  }

  /** After the injection the injected leaf is the only runnable node. */
  lemma LeafOnlyRunnable(m: map<string, PlanNode>, m': map<string, PlanNode>, x: string, y: PlanNode)
    requires OnlyRunnable(m, x) && Closed(GraphOf(m)) && m[x].status != Completed
    requires SoleInjected(m[x := m[x].(status := Running)], m', x, y) && y.status == Draft && y.dependsOn == []
    ensures OnlyRunnable(m', y.id)
  {
    hide GraphOf;
    forall n | n in m' ensures IsRunnable(m'[n], m') <==> n == y.id {
      if n in m && n != x {
        StillWaiting(m, m', x, y, n);
      }
    }
  }

  lemma StillWaiting(m: map<string, PlanNode>, m': map<string, PlanNode>, x: string, y: PlanNode, n: string)
    requires OnlyRunnable(m, x) && Closed(GraphOf(m)) && m[x].status != Completed
    requires SoleInjected(m[x := m[x].(status := Running)], m', x, y)
    requires n in m && n != x
    ensures n in m' && !IsRunnable(m'[n], m')
  {
    assert m'[n] == m[n];
    if m[n].status in {Draft, Ready} {
      var d :| d in m[n].dependsOn && !(d in m && m[d].status == Completed);
      assert d in GraphOf(m)[n];
      assert d in m && (d != x ==> m'[d] == m[d]);
    }
  }

  lemma LonelyJoins(cfg: Config, s: State, s2: State, s3: State, x: string, y: PlanNode)
    requires Lonely(cfg, s, x) && View(s2) == View(s)[x := View(s)[x].(status := Running)] && Asking(cfg, s2, x)
    requires SoleInjected(View(s2), View(s3), x, y) && y.status == Draft && y.dependsOn == []
    requires Inv(cfg, s3) && WellFormed(s3.plan.nodes)
    requires s3.phase == InBatch && s3.pending == multiset{} && s3.running == multiset{}
    requires s3.counts.Keys == s2.counts.Keys + {x}
    ensures Enabled(cfg, s3, Join) && Lonely(cfg, Next(cfg, s3, Join), y.id)
  {
    LonelyClosed(cfg, s, x);
    AskedListed(cfg, s2, s3, x, y);
    LonelyAgain(cfg, s3, y.id);
    hide Inv, View, OnlyRunnable, GraphOf, Closed, SoleInjected, Asking, Ids, Enabled, Next;
    LeafOnlyRunnable(View(s), View(s3), x, y);
  }

  lemma LonelyAgain(cfg: Config, s: State, y: string)
    requires Inv(cfg, s) && WellFormed(s.plan.nodes)
    requires s.phase == InBatch && s.pending == multiset{} && s.running == multiset{}
    requires s.counts.Keys <= Ids(s.plan.nodes) && y !in s.counts
    ensures Enabled(cfg, s, Join)
    ensures OnlyRunnable(View(s), y) ==> Lonely(cfg, Next(cfg, s, Join), y)
  {
    assert Enabled(cfg, s, Join);
    hide Inv, Ids, OnlyRunnable, NodeMap, Enabled;
    StepKeepsInv(cfg, s, Join);
  }

  lemma AskedListed(cfg: Config, s2: State, s3: State, x: string, y: PlanNode)
    requires Asking(cfg, s2, x) && SoleInjected(View(s2), View(s3), x, y)
    requires s3.counts.Keys == s2.counts.Keys + {x}
    ensures s3.counts.Keys <= Ids(s3.plan.nodes) && y.id !in s3.counts
  {
    hide Inv, Ids;
  }

  lemma LonelyClosed(cfg: Config, s: State, x: string)
    requires Lonely(cfg, s, x)
    ensures x in View(s) && Closed(GraphOf(View(s))) && View(s)[x].status != Completed
  {
    hide Inv, Acyclic, Closed, DistinctIds;
  }

  ghost predicate SafelyRuns(cfg: Config, s: State, es: seq<Event>) {
    Runs(cfg, s, es) && AllSafe(cfg, s, es)
  }

  /** One round: the node is dispatched, asks, gets a leaf, and the leaf is the next to run. */
  lemma LonelyRound(cfg: Config, s: State, x: string) returns (s4: State, y: string)
    requires Lonely(cfg, s, x) && cfg.hasPlanner && cfg.maxConcurrency > 0
    ensures Lonely(cfg, s4, y)
    ensures forall es :: SafelyRuns(cfg, s4, es) ==>
      SafelyRuns(cfg, s, [Dispatch, Start(x), Finish(x, ASKS), Join] + es)
  {
    hide Inv, Benign, Safe, OnlyRunnable, View, Enabled, Next, SoleNode, SoleInjected, Asking, Runs, AllSafe,
         WellFormed;
    var s1 := Next(cfg, s, Dispatch);
    var s2 := Next(cfg, s1, Start(x));
    var s3 := Next(cfg, s2, Finish(x, ASKS));
    LonelyStart(cfg, s, x);
    LonelyAsks(cfg, s2, x);
    LonelyJoins(cfg, s, s2, s3, x, SoleNode(s2.plan.nodes, x, LEAF));
    s4, y := Next(cfg, s3, Join), SoleNode(s2.plan.nodes, x, LEAF).id;
    forall es | SafelyRuns(cfg, s4, es) ensures SafelyRuns(cfg, s, [Dispatch, Start(x), Finish(x, ASKS), Join] + es) {
      NothingAtStake(cfg, s, s1, s3, x);
      RunsPrepend(cfg, s3, Join, es);
      RunsPrepend(cfg, s2, Finish(x, ASKS), [Join] + es);
      RunsPrepend(cfg, s1, Start(x), [Finish(x, ASKS)] + ([Join] + es));
      RunsPrepend(cfg, s, Dispatch, [Start(x)] + ([Finish(x, ASKS)] + ([Join] + es)));
      assert [Dispatch] + ([Start(x)] + ([Finish(x, ASKS)] + ([Join] + es)))
          == [Dispatch, Start(x), Finish(x, ASKS), Join] + es;
    }
  }

  lemma NothingAtStake(cfg: Config, s: State, s1: State, s3: State, x: string)
    ensures Benign(cfg, s, Dispatch) && Benign(cfg, s1, Start(x)) && Benign(cfg, s3, Join)
    ensures Safe(cfg, s, Dispatch) && Safe(cfg, s1, Start(x)) && Safe(cfg, s3, Join)
  {
  }

  lemma RunsPrepend(cfg: Config, s: State, e: Event, es: seq<Event>)
    ensures Runs(cfg, s, [e] + es) <==> Enabled(cfg, s, e) && Benign(cfg, s, e) && Runs(cfg, Next(cfg, s, e), es)
    ensures AllSafe(cfg, s, [e] + es) <==> Safe(cfg, s, e) && AllSafe(cfg, Next(cfg, s, e), es)
    ensures Final(cfg, s, [e] + es) == Final(cfg, Next(cfg, s, e), es)
  {
    hide Enabled, Benign, Safe, Next;
    assert ([e] + es)[1..] == es;
  }

  /**
   When every node asks in its turn for one more prerequisite, each node is still dispatched at
   most four times, each injection is safe, and yet runs with any number of dispatches exist.
   */
  lemma {:induction false} NestingIsUnbounded(cfg: Config, s: State, x: string, n: nat) returns (es: seq<Event>)
    requires Lonely(cfg, s, x) && cfg.hasPlanner && cfg.maxConcurrency > 0
    ensures Runs(cfg, s, es) && AllSafe(cfg, s, es) && TotalStarts(es) == n
    ensures forall e :: e in es && e.Finish? ==> e.outcome == ASKS
    decreases n
  {
    hide Lonely, Runs, AllSafe;
    es := [];
    if n == 0 {
      NoSteps(cfg, s);
    } else {
      var s4, y := LonelyRound(cfg, s, x);
      var rest := NestingIsUnbounded(cfg, s4, y, n - 1);
      es := [Dispatch, Start(x), Finish(x, ASKS), Join] + rest;
      OneStart(x, rest);
    }
  }

  lemma NoSteps(cfg: Config, s: State)
    ensures Runs(cfg, s, []) && AllSafe(cfg, s, [])
  {
  }

  lemma OneStart(x: string, rest: seq<Event>)
    ensures TotalStarts([Dispatch, Start(x), Finish(x, ASKS), Join] + rest) == 1 + TotalStarts(rest)
  {
    var es := [Dispatch, Start(x), Finish(x, ASKS), Join] + rest;
    assert es[1..] == [Start(x), Finish(x, ASKS), Join] + rest;
    assert es[1..][1..] == [Finish(x, ASKS), Join] + rest;
    assert es[1..][1..][1..] == [Join] + rest;
    assert es[1..][1..][1..][1..] == rest;
    assert TotalStarts(es[1..][1..]) == TotalStarts(es[1..][1..][1..]) == TotalStarts(rest);
  }

  /** A plan of one unstarted node with no dependencies is where such runs begin. */
  lemma SingleNodeIsLonely(cfg: Config, plan: ExecutionPlan, node: PlanNode)
    requires plan.nodes == [node] && node.dependsOn == [] && node.status == Draft
    ensures Lonely(cfg, InitialState(plan, map[]), node.id)
  {
    SoleMap(node);
    assert Elems(node.dependsOn) == {};
    RankedIsAcyclic(PlanGraph(plan.nodes), map[node.id := 0]);
    hide Acyclic;
    InitialInv(cfg, plan, map[]);
  }

  /**
   From any plan of one unstarted node without dependencies: the planned prerequisite waits for the
   node that asked, or for an unknown one, and the finished run reports RUNNING.
   */
  lemma UnsafeInjectionEndsRunning(cfg: Config, plan: ExecutionPlan, node: PlanNode, sub: PlanNode, d: string)
    requires plan.nodes == [node] && node.dependsOn == [] && node.status == Draft
    requires cfg.hasPlanner && cfg.maxConcurrency > 0
    requires sub.id !in sub.dependsOn && SoleId(plan.nodes, node.id) !in sub.dependsOn && d in sub.dependsOn
    ensures var x, o := node.id, DependencyMissing(Planned([sub]));
            var s0, es := InitialState(plan, map[]), [Dispatch, Start(x), Finish(x, o), Join, Stop];
            Runs(cfg, s0, es) && Final(cfg, s0, es).phase == Finished && Final(cfg, s0, es).plan.status == Running
  {
    hide Inv, View, Enabled, Next, SoleId, Lonely, Asking, Runs, Final, WellFormed;
    var x, o := node.id, DependencyMissing(Planned([sub]));
    var s0 := InitialState(plan, map[]);
    var s1 := Next(cfg, s0, Dispatch);
    var s2 := Next(cfg, s1, Start(x));
    var s3 := Next(cfg, s2, Finish(x, o));
    var s4 := Next(cfg, s3, Join);
    SingleNodeIsLonely(cfg, plan, node);
    LonelyStart(cfg, s0, x);
    OneAsks(cfg, s0, s2, node, sub, d);
    BenignOnes(cfg, s0, s1, s2, s3, s4, x, sub);
    StopFinishes(cfg, s4);
    var rest := [Stop];
    RunsPrepend(cfg, s4, Stop, []);
    assert [Stop] + [] == rest;
    RunsPrepend(cfg, s3, Join, rest);
    RunsPrepend(cfg, s2, Finish(x, o), [Join] + rest);
    RunsPrepend(cfg, s1, Start(x), [Finish(x, o)] + ([Join] + rest));
    RunsPrepend(cfg, s0, Dispatch, [Start(x)] + ([Finish(x, o)] + ([Join] + rest)));
    assert [Dispatch] + ([Start(x)] + ([Finish(x, o)] + ([Join] + rest)))
        == [Dispatch, Start(x), Finish(x, o), Join, Stop];
  }

  lemma OneAsks(cfg: Config, s0: State, s2: State, node: PlanNode, sub: PlanNode, d: string)
    requires s0.plan.nodes == [node] && cfg.hasPlanner && Asking(cfg, s2, node.id)
    requires View(s2) == View(s0)[node.id := View(s0)[node.id].(status := Running)]
    requires sub.id !in sub.dependsOn && SoleId(s0.plan.nodes, node.id) !in sub.dependsOn && d in sub.dependsOn
    ensures var o := DependencyMissing(Planned([sub]));
            var joined := Next(cfg, Next(cfg, s2, Finish(node.id, o)), Join);
            && Enabled(cfg, s2, Finish(node.id, o)) && Enabled(cfg, Next(cfg, s2, Finish(node.id, o)), Join)
            && Enabled(cfg, joined, Stop) && Next(cfg, joined, Stop).plan.status == Running
  {
    hide Inv, WellFormed, Enabled, Next, FreshId;
    SoleMap(node);
    assert Ids(s2.plan.nodes) == Ids(s0.plan.nodes) == {node.id};
    UnsafeAnswerStalls(cfg, s2, node.id, sub, d);
  }

  lemma BenignOnes(cfg: Config, s0: State, s1: State, s2: State, s3: State, s4: State, x: string, sub: PlanNode)
    ensures Benign(cfg, s0, Dispatch) && Benign(cfg, s1, Start(x))
    ensures Benign(cfg, s2, Finish(x, DependencyMissing(Planned([sub]))))
    ensures Benign(cfg, s3, Join) && Benign(cfg, s4, Stop)
  {
  }

  lemma StopFinishes(cfg: Config, s: State)
    ensures Runs(cfg, Next(cfg, s, Stop), []) && Final(cfg, Next(cfg, s, Stop), []) == Next(cfg, s, Stop)
    ensures Next(cfg, s, Stop).phase == Finished
  {
  }
}
