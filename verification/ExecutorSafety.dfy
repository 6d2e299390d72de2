/** What every step of the executor keeps, and what therefore holds in every run. */
module ExecutorSafety {
  import opened Dag
  import opened Models
  import opened Injection
  import opened InjectionTheorems
  import opened ExecutorModel

  function View(s: State): map<string, PlanNode> {
    NodeMap(s.plan.nodes)
  }

  // ---- the invariant ----

  /** Completed nodes have only completed dependencies. */
  ghost predicate CompletedClosed(m: map<string, PlanNode>) {
    forall n :: n in m && m[n].status == Completed ==> DependenciesMet(m[n], m)
  }

  /** Running nodes are exactly the semaphore holders, and started with their dependencies met. */
  ghost predicate RunningHeld(m: map<string, PlanNode>, running: set<string>) {
    && running <= m.Keys
    && (forall n :: n in m ==> (m[n].status == Running <==> n in running))
    && (forall n :: n in running ==> DependenciesMet(m[n], m))
  }

  ghost predicate PendingRunnable(m: map<string, PlanNode>, pending: set<string>) {
    && pending <= m.Keys
    && forall n :: n in pending ==> IsRunnable(m[n], m)
  }

  ghost predicate Inv(cfg: Config, s: State) {
    && DistinctIds(s.plan.nodes)
    && CompletedClosed(View(s))
    && Once(s.running) && RunningHeld(View(s), Members(s.running))
    && Once(s.pending) && PendingRunnable(View(s), Members(s.pending))
    && |s.running| <= cfg.maxConcurrency
    && (s.phase != InBatch ==> s.pending == multiset{} && s.running == multiset{})
    && (s.phase != Finished ==> s.plan.status == Running)
  }

  /** A plan a run may start from: distinct ids, nothing running, completed nodes closed. */
  ghost predicate Startable(nodes: seq<PlanNode>) {
    && DistinctIds(nodes)
    && CompletedClosed(NodeMap(nodes))
    && forall i :: 0 <= i < |nodes| ==> nodes[i].status != Running
  }

  lemma InitialInv(cfg: Config, plan: ExecutionPlan, counts: map<string, nat>)
    requires Startable(plan.nodes)
    ensures Inv(cfg, InitialState(plan, counts))
  {
  }

  /** What a run assumes of its environment: the sub-nodes of an injected answer have distinct ids. */
  ghost predicate Benign(cfg: Config, s: State, e: Event) {
    e.Finish? && Injects(cfg, s.counts, e.id, e.outcome) ==> DistinctIds(e.outcome.answer.subs)
  }

  /** An injected sub-DAG is also safe for the plan it lands in. */
  ghost predicate Safe(cfg: Config, s: State, e: Event) {
    e.Finish? && Injects(cfg, s.counts, e.id, e.outcome) && e.outcome.answer.subs != [] ==>
      SafeInjection(s.plan.nodes, e.id, e.outcome.answer.subs)
  }

  // ---- groups of tasks with different ids ----

  ghost predicate Once(tasks: multiset<string>) {
    forall id :: id in tasks ==> tasks[id] == 1
  }

  lemma OnceSize(tasks: multiset<string>)
    requires Once(tasks)
    ensures |tasks| == |Members(tasks)|
  {
    assert tasks == multiset(Members(tasks));
  }

  lemma RemoveTask(tasks: multiset<string>, id: string)
    requires Once(tasks) && id in tasks
    ensures Once(tasks - multiset{id}) && Members(tasks - multiset{id}) == Members(tasks) - {id}
    ensures |tasks - multiset{id}| == |tasks| - 1
  {
  }

  lemma AddTask(tasks: multiset<string>, id: string)
    requires Once(tasks) && id !in tasks
    ensures Once(tasks + multiset{id}) && Members(tasks + multiset{id}) == Members(tasks) + {id}
    ensures |tasks + multiset{id}| == |tasks| + 1
  {
  }

  lemma {:induction false} DistinctOnce(ids: seq<string>)
    requires Distinct(ids)
    ensures Once(multiset(ids)) && Members(multiset(ids)) == Elems(ids)
  {
    if ids != [] {
      var k := |ids| - 1;
      DistinctOnce(ids[..k]);
      assert ids == ids[..k] + [ids[k]];
      assert ids[k] !in ids[..k];
    }
  }

  // ---- one step, seen through the lookup table ----

  /** Every other node is untouched, and new nodes are drafts. */
  ghost predicate OthersKept(m: map<string, PlanNode>, m': map<string, PlanNode>, id: string) {
    && m.Keys <= m'.Keys
    && (forall n :: n in m && n != id ==> m'[n] == m[n])
    && (forall n :: n in m' && n !in m ==> m'[n].status == Draft)
  }

  lemma SameDepsSameShape(nodes: seq<PlanNode>, node: PlanNode)
    requires DistinctIds(nodes) && node.id in Ids(nodes)
    requires Elems(node.dependsOn) == Elems(NodeMap(nodes)[node.id].dependsOn)
    ensures DistinctIds(SetNode(nodes, node)) && PlanGraph(SetNode(nodes, node)) == PlanGraph(nodes)
    ensures NodeMap(SetNode(nodes, node)) == NodeMap(nodes)[node.id := node]
    ensures OthersKept(NodeMap(nodes), NodeMap(SetNode(nodes, node)), node.id)
  {
    hide DistinctIds, SetNode, NodeMap, Elems, OthersKept;
    SetNodeMap(nodes, node);
    SetNodeDistinct(nodes, node);
    SameGraph(NodeMap(nodes), node);
    UpdateKeepsOthers(NodeMap(nodes), node);
  }

  lemma UpdateKeepsOthers(m: map<string, PlanNode>, node: PlanNode)
    requires node.id in m
    ensures OthersKept(m, m[node.id := node], node.id)
  {
  }

  lemma SameGraph(m: map<string, PlanNode>, node: PlanNode)
    requires node.id in m && Elems(node.dependsOn) == Elems(m[node.id].dependsOn)
    ensures GraphOf(m[node.id := node]) == GraphOf(m)
  {
  }

  lemma FinishSettles(cfg: Config, s: State, id: string, o: Outcome)
    requires DistinctIds(s.plan.nodes) && id in View(s) && !Injects(cfg, s.counts, id, o)
    ensures var nodes' := FinishNodes(cfg, s.plan.nodes, s.counts, id, o);
            && DistinctIds(nodes') && PlanGraph(nodes') == PlanGraph(s.plan.nodes)
            && OthersKept(View(s), NodeMap(nodes'), id)
            && NodeMap(nodes') == View(s)[id := SettledNode(cfg, s.counts, View(s)[id], o)]
  {
    hide SettledNode, DistinctIds, OthersKept, NodeMap, PlanGraph;
    SameDepsSameShape(s.plan.nodes, SettledNode(cfg, s.counts, View(s)[id], o));
  }

  lemma FinishInjects(cfg: Config, s: State, id: string, o: Outcome)
    requires DistinctIds(s.plan.nodes) && id in View(s) && Injects(cfg, s.counts, id, o)
    requires Benign(cfg, s, Finish(id, o))
    ensures var nodes' := FinishNodes(cfg, s.plan.nodes, s.counts, id, o);
            && DistinctIds(nodes')
            && OthersKept(View(s), NodeMap(nodes'), id)
            && NodeMap(nodes')[id].(dependsOn := View(s)[id].dependsOn) == ResetNode(View(s)[id])
            && Elems(View(s)[id].dependsOn) <= Elems(NodeMap(nodes')[id].dependsOn)
  {
    var nodes, subs := s.plan.nodes, o.answer.subs;
    if subs == [] {
      EmptyInjection(nodes, id);
    } else {
      FullInjection(nodes, id, subs);
    }
  }

  lemma EmptyInjection(nodes: seq<PlanNode>, id: string)
    requires DistinctIds(nodes) && id in Ids(nodes)
    ensures DistinctIds(Inject(nodes, id, [])) && PlanGraph(Inject(nodes, id, [])) == PlanGraph(nodes)
    ensures OthersKept(NodeMap(nodes), NodeMap(Inject(nodes, id, [])), id)
    ensures NodeMap(Inject(nodes, id, [])) == NodeMap(nodes)[id := ResetNode(NodeMap(nodes)[id])]
  {
    hide DistinctIds, OthersKept, NodeMap, PlanGraph;
    SameDepsSameShape(nodes, ResetNode(NodeMap(nodes)[id]));
  }

  lemma FullInjection(nodes: seq<PlanNode>, id: string, subs: seq<PlanNode>)
    requires DistinctIds(nodes) && id in Ids(nodes) && subs != [] && DistinctIds(subs)
    ensures DistinctIds(Inject(nodes, id, subs))
    ensures OthersKept(NodeMap(nodes), NodeMap(Inject(nodes, id, subs)), id)
    ensures var before, after := NodeMap(nodes)[id], NodeMap(Inject(nodes, id, subs))[id];
            && after.(dependsOn := before.dependsOn) == ResetNode(before)
            && Elems(before.dependsOn) <= Elems(after.dependsOn)
    ensures NodeMap(Inject(nodes, id, subs)).Keys == Ids(nodes) + Ids(Remapped(Ids(nodes), id, subs))
    ensures Ids(nodes) !! Ids(Remapped(Ids(nodes), id, subs))
  {
    hide Inject, Remapped, TerminalIds, AllDeps, Rewired, NodeMap, DistinctIds, OthersKept;
    InjectedMap(nodes, id, subs);
    var injected := Remapped(Ids(nodes), id, subs);
    InjectedAreDrafts(nodes, id, subs);
    JoinedView(NodeMap(nodes), NodeMap(injected), id, TerminalIds(injected, AllDeps(injected)));
  }

  lemma InjectedAreDrafts(nodes: seq<PlanNode>, id: string, subs: seq<PlanNode>)
    ensures var m := NodeMap(Remapped(Ids(nodes), id, subs));
            forall n :: n in m ==> m[n].status == Draft
  {
    var injected := Remapped(Ids(nodes), id, subs);
    forall n | n in NodeMap(injected) ensures NodeMap(injected)[n].status == Draft {
      var i :| 0 <= i < |injected| && injected[i] == NodeMap(injected)[n];
    }
  }

  lemma JoinedView(m: map<string, PlanNode>, extra: map<string, PlanNode>, id: string, terminals: seq<string>)
    requires id in m && m.Keys !! extra.Keys
    requires forall n :: n in extra ==> extra[n].status == Draft
    ensures var m' := m[id := Rewired(m[id], terminals)] + extra;
            && OthersKept(m, m', id)
            && m'[id].(dependsOn := m[id].dependsOn) == ResetNode(m[id])
            && Elems(m[id].dependsOn) <= Elems(m'[id].dependsOn)
            && m'.Keys == m.Keys + extra.Keys
  {
    hide AddDeps, Elems;
  }

  // ---- the invariant is kept ----

  lemma MetStays(m: map<string, PlanNode>, m': map<string, PlanNode>, id: string, node: PlanNode)
    requires OthersKept(m, m', id) && (id in m ==> m[id].status != Completed)
    requires DependenciesMet(node, m)
    ensures DependenciesMet(node, m')
  {
  }

  lemma AllMetStay(m: map<string, PlanNode>, m': map<string, PlanNode>, id: string)
    requires id in m && m[id].status != Completed && OthersKept(m, m', id)
    ensures forall n :: n in m && DependenciesMet(m[n], m) ==> DependenciesMet(m[n], m')
    ensures DependenciesMet(m'[id], m) ==> DependenciesMet(m'[id], m')
  {
    hide DependenciesMet, OthersKept;
    forall n | n in m && DependenciesMet(m[n], m) ensures DependenciesMet(m[n], m') {
      MetStays(m, m', id, m[n]);
    }
    assert id in m' by { OwnStays(m, m', id); }
    if DependenciesMet(m'[id], m) {
      MetStays(m, m', id, m'[id]);
    }
  }

  lemma OwnStays(m: map<string, PlanNode>, m': map<string, PlanNode>, id: string)
    requires id in m && OthersKept(m, m', id)
    ensures id in m'
  {
  }

  lemma CompletedStays(m: map<string, PlanNode>, m': map<string, PlanNode>, id: string)
    requires id in m && m[id].status != Completed && OthersKept(m, m', id) && CompletedClosed(m)
    requires m'[id].status == Completed ==> DependenciesMet(m'[id], m)
    ensures CompletedClosed(m')
  {
    AllMetStay(m, m', id);
    hide DependenciesMet;
  }

  lemma RunningStays(m: map<string, PlanNode>, m': map<string, PlanNode>, id: string, running: set<string>)
    requires id in m && m[id].status != Completed && OthersKept(m, m', id) && RunningHeld(m, running)
    ensures m'[id].status != Running ==> RunningHeld(m', running - {id})
    ensures m'[id].status == Running && DependenciesMet(m'[id], m) ==> RunningHeld(m', running + {id})
  {
    hide DependenciesMet;
    forall n | n in running ensures DependenciesMet(m[n], m') {
      MetStays(m, m', id, m[n]);
    }
    if DependenciesMet(m'[id], m) {
      MetStays(m, m', id, m'[id]);
    }
  }

  lemma PendingStays(m: map<string, PlanNode>, m': map<string, PlanNode>, id: string, pending: set<string>)
    requires id in m && m[id].status != Completed && OthersKept(m, m', id) && PendingRunnable(m, pending)
    ensures PendingRunnable(m', pending - {id})
  {
    AllMetStay(m, m', id);
    hide DependenciesMet;
  }

  /** A step on a node that is not completed keeps the other nodes' part of the invariant. */
  lemma OthersInv(m: map<string, PlanNode>, m': map<string, PlanNode>, id: string,
                  pending: set<string>, running: set<string>)
    requires id in m && m[id].status != Completed && OthersKept(m, m', id)
    requires CompletedClosed(m) && RunningHeld(m, running) && PendingRunnable(m, pending)
    requires m'[id].status == Completed ==> DependenciesMet(m'[id], m)
    ensures CompletedClosed(m')
    ensures m'[id].status != Running ==> RunningHeld(m', running - {id})
    ensures m'[id].status == Running && DependenciesMet(m'[id], m) ==> RunningHeld(m', running + {id})
    ensures PendingRunnable(m', pending - {id})
  {
    OwnStays(m, m', id);
    hide CompletedClosed, RunningHeld, PendingRunnable, DependenciesMet, OthersKept;
    CompletedStays(m, m', id);
    RunningStays(m, m', id, running);
    PendingStays(m, m', id, pending);
  }

  lemma FinishedParts(m: map<string, PlanNode>, m': map<string, PlanNode>, id: string,
                      pending: set<string>, running: set<string>)
    requires OthersKept(m, m', id) && CompletedClosed(m) && RunningHeld(m, running) && PendingRunnable(m, pending)
    requires id in running && id in m && m[id].status == Running && id in m' && m'[id].status != Running
    requires m'[id].status == Completed ==> DependenciesMet(m'[id], m)
    ensures CompletedClosed(m') && RunningHeld(m', running - {id}) && PendingRunnable(m', pending)
  {
    NotPending(m, pending, running, id);
    hide CompletedClosed, RunningHeld, PendingRunnable, DependenciesMet, OthersKept;
    OthersInv(m, m', id, pending, running);
    assert pending - {id} == pending;
  }

  lemma FinishKeepsInv(cfg: Config, s: State, id: string, o: Outcome)
    requires Inv(cfg, s) && Enabled(cfg, s, Finish(id, o)) && Benign(cfg, s, Finish(id, o))
    ensures Inv(cfg, Next(cfg, s, Finish(id, o)))
    ensures OthersKept(View(s), View(Next(cfg, s, Finish(id, o))), id)
    ensures id in View(s) && View(s)[id].status == Running
    ensures View(Next(cfg, s, Finish(id, o)))[id].status != Running
  {
    RunningMember(s.running, id);
    RunningInTable(View(s), Members(s.running), id);
    assert Once(s.running) && DistinctIds(s.plan.nodes) && s.phase == InBatch && s.plan.status == Running;
    var s' := Next(cfg, s, Finish(id, o));
    FinishedFields(cfg, s, id, o);
    hide DistinctIds, FinishNodes, OthersKept, FinishCounts, NextDepth, CompletedClosed, PendingRunnable,
         RunningHeld, Once, Members, NodeMap, Next, DependenciesMet, Benign, Enabled, Injects;
    FinishedNode(cfg, s, id, o);
    FinishedParts(View(s), View(s'), id, Members(s.pending), Members(s.running));
    RemoveTask(s.running, id);
  }

  lemma RunningInTable(m: map<string, PlanNode>, running: set<string>, id: string)
    requires RunningHeld(m, running) && id in running
    ensures id in m && m[id].status == Running && DependenciesMet(m[id], m)
  {
    hide DependenciesMet;
  }

  /** The finished task's node is settled with its dependencies met, or reset. */
  lemma FinishedNode(cfg: Config, s: State, id: string, o: Outcome)
    requires DistinctIds(s.plan.nodes) && id in View(s) && DependenciesMet(View(s)[id], View(s))
    requires Benign(cfg, s, Finish(id, o))
    ensures var nodes' := FinishNodes(cfg, s.plan.nodes, s.counts, id, o);
            && DistinctIds(nodes') && OthersKept(View(s), NodeMap(nodes'), id) && id in NodeMap(nodes')
            && NodeMap(nodes')[id].status != Running
            && (NodeMap(nodes')[id].status == Completed ==> DependenciesMet(NodeMap(nodes')[id], View(s)))
  {
    hide DistinctIds, FinishNodes, OthersKept, NodeMap, Benign, SettledNode, PlanGraph, DependenciesMet;
    if Injects(cfg, s.counts, id, o) {
      FinishInjects(cfg, s, id, o);
      OwnStays(View(s), NodeMap(FinishNodes(cfg, s.plan.nodes, s.counts, id, o)), id);
    } else {
      FinishSettles(cfg, s, id, o);
      SameDepsMet(View(s)[id], SettledNode(cfg, s.counts, View(s)[id], o), View(s));
    }
  }

  lemma RunningMember(tasks: multiset<string>, id: string)
    ensures id in tasks <==> id in Members(tasks)
  {
  }

  lemma NotPending(m: map<string, PlanNode>, pending: set<string>, running: set<string>, id: string)
    requires PendingRunnable(m, pending) && RunningHeld(m, running) && id in running
    ensures id !in pending
  {
  }

  /** A pending task always starts: its node is found, not settled, and is marked running. */
  lemma StartMarksRunning(cfg: Config, s: State, id: string)
    requires Inv(cfg, s) && id in s.pending
    ensures CanStart(s.plan.nodes, id) && id !in s.running
    ensures id in View(s) && IsRunnable(View(s)[id], View(s))
    ensures DistinctIds(StartNodes(s.plan.nodes, id))
    ensures PlanGraph(StartNodes(s.plan.nodes, id)) == PlanGraph(s.plan.nodes)
    ensures OthersKept(View(s), NodeMap(StartNodes(s.plan.nodes, id)), id)
    ensures NodeMap(StartNodes(s.plan.nodes, id)) == View(s)[id := View(s)[id].(status := Running)]
  {
    hide DistinctIds, OthersKept, CompletedClosed, DependenciesMet, NodeMap, Members, Once, PlanGraph;
    RunningMember(s.pending, id);
    RunningMember(s.running, id);
    SameDepsSameShape(s.plan.nodes, View(s)[id].(status := Running));
  }

  lemma StartKeepsInv(cfg: Config, s: State, id: string)
    requires Inv(cfg, s) && Enabled(cfg, s, Start(id))
    ensures Inv(cfg, Next(cfg, s, Start(id)))
  {
    hide DistinctIds, OthersKept, CompletedClosed, PendingRunnable, RunningHeld, DependenciesMet, StartNodes,
         CanStart, NodeMap, Once, Members;
    StartMarksRunning(cfg, s, id);
    var s' := Next(cfg, s, Start(id));
    SameDepsMet(View(s)[id], View(s')[id], View(s));
    OthersInv(View(s), View(s'), id, Members(s.pending), Members(s.running));
    RemoveTask(s.pending, id);
    AddTask(s.running, id);
  }

  lemma SameDepsMet(a: PlanNode, b: PlanNode, m: map<string, PlanNode>)
    requires a.dependsOn == b.dependsOn && DependenciesMet(a, m)
    ensures DependenciesMet(b, m)
  {
  }

  lemma {:induction false} FilterDistinct(nodes: seq<PlanNode>, m: map<string, PlanNode>)
    requires DistinctIds(nodes)
    ensures DistinctIds(Filter(nodes, m))
  {
    hide IsRunnable;
    if nodes != [] {
      FilterDistinct(nodes[1..], m);
      assert forall n :: n in Filter(nodes[1..], m) ==> n in nodes[1..];
      forall j | 0 <= j < |Filter(nodes[1..], m)| ensures Filter(nodes[1..], m)[j].id != nodes[0].id {
        assert Filter(nodes[1..], m)[j] in nodes[1..];
      }
    }
  }

  lemma DispatchKeepsInv(cfg: Config, s: State)
    requires Inv(cfg, s) && Enabled(cfg, s, Dispatch)
    ensures Inv(cfg, Next(cfg, s, Dispatch))
  {
    hide CompletedClosed, DependenciesMet, Once, Members, CollectRunnable, DistinctIds;
    BatchMembers(s.plan.nodes);
    var r := CollectRunnable(s.plan.nodes);
    forall n | n in Ids(r) ensures n in View(s) && IsRunnable(View(s)[n], View(s)) {
      CollectedRunnable(s.plan.nodes, n);
    }
  }

  lemma BatchMembers(nodes: seq<PlanNode>)
    requires DistinctIds(nodes)
    ensures Once(multiset(IdList(CollectRunnable(nodes))))
    ensures Members(multiset(IdList(CollectRunnable(nodes)))) == Ids(CollectRunnable(nodes))
  {
    hide Once, Members, Filter;
    FilterDistinct(nodes, NodeMap(nodes));
    DistinctOnce(IdList(CollectRunnable(nodes)));
  }

  lemma CollectedRunnable(nodes: seq<PlanNode>, n: string)
    requires DistinctIds(nodes) && n in Ids(CollectRunnable(nodes))
    ensures n in NodeMap(nodes) && IsRunnable(NodeMap(nodes)[n], NodeMap(nodes))
  {
    hide IsRunnable, NodeMap;
    var r := CollectRunnable(nodes);
    var i :| 0 <= i < |r| && r[i].id == n;
    assert r[i] in nodes;
    var j :| 0 <= j < |nodes| && nodes[j] == r[i];
    NodeMapAt(nodes, j);
  }

  /** Every enabled step keeps the invariant. */
  lemma StepKeepsInv(cfg: Config, s: State, e: Event)
    requires Inv(cfg, s) && Enabled(cfg, s, e) && Benign(cfg, s, e)
    ensures Inv(cfg, Next(cfg, s, e))
  {
    hide DistinctIds, CompletedClosed, RunningHeld, PendingRunnable, Once, Members;
    match e
    case Dispatch => DispatchKeepsInv(cfg, s);
    case Start(id) => StartKeepsInv(cfg, s, id);
    case Finish(id, o) => FinishKeepsInv(cfg, s, id, o);
    case Join =>
    case Wait =>
    case Stop =>
  }

  // ---- closed and acyclic as long as injections are safe ----

  lemma FinishKeepsWellFormed(cfg: Config, s: State, id: string, o: Outcome)
    requires WellFormed(s.plan.nodes) && id in View(s) && Safe(cfg, s, Finish(id, o))
    ensures WellFormed(FinishNodes(cfg, s.plan.nodes, s.counts, id, o))
  {
    hide Acyclic, Closed, DistinctIds, NodeMap, SafeInjection, Inject, SettledNode, OthersKept;
    if !Injects(cfg, s.counts, id, o) {
      FinishSettles(cfg, s, id, o);
    } else if o.answer.subs == [] {
      EmptyInjection(s.plan.nodes, id);
    } else {
      InjectionKeepsPlanIffSafe(s.plan.nodes, id, o.answer.subs);
    }
  }

  /** A plan that is closed and acyclic stays so along steps whose injections are safe. */
  lemma StepKeepsWellFormed(cfg: Config, s: State, e: Event)
    requires Inv(cfg, s) && Enabled(cfg, s, e) && Safe(cfg, s, e) && WellFormed(s.plan.nodes)
    ensures WellFormed(Next(cfg, s, e).plan.nodes)
  {
    hide Acyclic, Closed, DistinctIds, NodeMap, CompletedClosed, PendingRunnable, Once, DependenciesMet, FinishNodes,
         StartNodes, CanStart, OthersKept, Safe;
    match e
    case Start(id) => StartMarksRunning(cfg, s, id);
    case Finish(id, o) => FinishKeepsWellFormed(cfg, s, id, o);
    case _ =>
  }
}
