/** What the executor's parts do, in terms of nodes and fields, without the functions that compute it. */
module ExecutorContracts {
  import opened Wrappers
  import opened Models
  import opened Injection
  import opened ExecutorModel
  import opened ExecutorSafety
  import opened ExecutorRuns

  // ---- which nodes a batch dispatches ----

  /** Not yet started, and every dependency is a completed node. */
  ghost predicate ReadyNow(nodes: seq<PlanNode>, node: PlanNode) {
    && node.status in {Draft, Ready}
    && forall d :: d in node.dependsOn ==> d in NodeMap(nodes) && NodeMap(nodes)[d].status == Completed
  }

  ghost function ReadyPlaces(nodes: seq<PlanNode>, id: string): set<nat> {
    set i | 0 <= i < |nodes| && nodes[i].id == id && ReadyNow(nodes, nodes[i])
  }

  ghost function PlacesIn(part: seq<PlanNode>, m: map<string, PlanNode>, id: string): set<nat> {
    set i | 0 <= i < |part| && part[i].id == id && IsRunnable(part[i], m)
  }

  lemma {:induction false} FilterCounts(part: seq<PlanNode>, m: map<string, PlanNode>, id: string)
    ensures multiset(IdList(Filter(part, m)))[id] == |PlacesIn(part, m, id)|
    decreases |part|
  {
    hide IsRunnable, Filter;
    if part == [] {
      FilterLast(part, m);
      assert PlacesIn(part, m, id) == {};
    } else {
      var rest, last := part[..|part| - 1], part[|part| - 1];
      assert part == rest + [last];
      FilterCounts(rest, m, id);
      FilterOneMore(rest, last, m);
      PlacesOneMore(rest, last, m, id);
      IdListOneMore(Filter(rest, m), last);
      assert Filter(rest, m) + [] == Filter(rest, m);
      assert |rest| !in PlacesIn(rest, m, id) && PlacesIn(rest, m, id) + {} == PlacesIn(rest, m, id);
    }
  }

  lemma {:induction false} FilterOneMore(part: seq<PlanNode>, last: PlanNode, m: map<string, PlanNode>)
    ensures Filter(part + [last], m) == Filter(part, m) + if IsRunnable(last, m) then [last] else []
  {
    hide IsRunnable;
    if part == [] {
      assert [] + [last] == [last] && [last][1..] == [];
      FilterLast([], m);
    } else {
      assert (part + [last])[1..] == part[1..] + [last];
      FilterOneMore(part[1..], last, m);
    }
  }

  lemma FilterLast(part: seq<PlanNode>, m: map<string, PlanNode>)
    ensures part == [] ==> Filter(part, m) == []
  {
  }

  lemma IdListOneMore(nodes: seq<PlanNode>, last: PlanNode)
    ensures IdList(nodes + [last]) == IdList(nodes) + [last.id]
  {
  }

  lemma PlacesOneMore(part: seq<PlanNode>, last: PlanNode, m: map<string, PlanNode>, id: string)
    ensures PlacesIn(part + [last], m, id)
         == PlacesIn(part, m, id) + if last.id == id && IsRunnable(last, m) then {|part|} else {}
  {
    hide IsRunnable;
  }

  /** A batch has one task for every ready node of the list, and nothing else changes. */
  lemma DispatchTakesAll(cfg: Config, s: State)
    requires Enabled(cfg, s, Dispatch)
    ensures var s' := Next(cfg, s, Dispatch);
            && (forall id :: s'.pending[id] == |ReadyPlaces(s.plan.nodes, id)|)
            && s'.plan == s.plan && s'.counts == s.counts && s'.running == s.running && s'.phase == InBatch
  {
    forall id ensures Next(cfg, s, Dispatch).pending[id] == |ReadyPlaces(s.plan.nodes, id)| {
      FilterCounts(s.plan.nodes, NodeMap(s.plan.nodes), id);
      ReadyIsRunnable(s.plan.nodes, id);
    }
  }

  lemma ReadyIsRunnable(nodes: seq<PlanNode>, id: string)
    ensures ReadyPlaces(nodes, id) == PlacesIn(nodes, NodeMap(nodes), id)
  {
    hide NodeMap;
  }

  /** A task marks the node its id finds as running, unless there is none or it has ended. */
  lemma StartDoes(nodes: seq<PlanNode>, id: string)
    ensures CanStart(nodes, id) <==> id in Ids(nodes) && NodeMap(nodes)[id].status in {Draft, Ready, Running}
    ensures !CanStart(nodes, id) ==> StartNodes(nodes, id) == nodes
    ensures CanStart(nodes, id) ==> StartsAt(nodes, id, StartNodes(nodes, id))
  {
    hide FindIndex, Ids, NodeMap, StartsAt;
    if id in Ids(nodes) {
      OpenStatus(NodeMap(nodes)[id].status);
    }
    if CanStart(nodes, id) {
      StartSets(nodes, id);
    }
  }

  lemma OpenStatus(s: PlanStatus)
    ensures !IsTerminalStatus(s) <==> s in {Draft, Ready, Running}
  {
  }

  ghost predicate StartsAt(nodes: seq<PlanNode>, id: string, after: seq<PlanNode>) {
    exists k :: 0 <= k < |nodes| && nodes[k].id == id && IsLast(nodes, k)
                && after == nodes[k := nodes[k].(status := Running)]
  }

  lemma StartSets(nodes: seq<PlanNode>, id: string)
    requires CanStart(nodes, id)
    ensures StartsAt(nodes, id, StartNodes(nodes, id))
  {
    hide SetNode, FindIndex, Ids, NodeMap, IsLast;
    FoundIsLast(nodes, id);
    SetAtFound(nodes, nodes[FindIndex(nodes, id).value].(status := Running));
  }

  lemma SetAtFound(nodes: seq<PlanNode>, node: PlanNode)
    requires FindIndex(nodes, node.id).Some?
    ensures SetNode(nodes, node) == nodes[FindIndex(nodes, node.id).value := node]
  {
    hide FindIndex, Ids, NodeMap;
  }

  // ---- the loop guard counts three requests ----

  /** How often the node's handler reported missing prerequisites. */
  function Requests(es: seq<Event>, id: string): nat {
    if es == [] then 0
    else (if es[0].Finish? && es[0].id == id && es[0].outcome.DependencyMissing? then 1 else 0) + Requests(es[1..], id)
  }

  function Counted(s: State, id: string): nat {
    if id in s.counts then s.counts[id] else 0
  }

  lemma {:induction false} CountsRequests(cfg: Config, s: State, es: seq<Event>, id: string)
    requires cfg.hasPlanner && Counted(s, id) <= 3
    ensures var n := Counted(s, id) + Requests(es, id); Counted(Final(cfg, s, es), id) == if n <= 3 then n else 3
    decreases |es|
  {
    if es != [] {
      StepCounts(cfg, s, es[0], id);
      hide Next;
      CountsRequests(cfg, Next(cfg, s, es[0]), es[1..], id);
    }
  }

  lemma StepCounts(cfg: Config, s: State, e: Event, id: string)
    ensures Counted(Next(cfg, s, e), id) ==
      if e.Finish? && e.id == id && e.outcome.DependencyMissing? && cfg.hasPlanner && Counted(s, id) < 3
      then Counted(s, id) + 1
      else Counted(s, id)
  {
    hide FinishNodes, NextDepth, StartNodes, CanStart, CollectRunnable, DerivePlanStatus;
  }

  /** Along every run a node's first three requests can inject, and the fourth fails the node. */
  lemma ThreeRequestsInject(cfg: Config, plan: ExecutionPlan, es: seq<Event>, id: string, subs: seq<PlanNode>)
    requires Startable(plan.nodes) && cfg.hasPlanner && DistinctIds(subs)
    requires Runs(cfg, InitialState(plan, map[]), es)
    requires Enabled(cfg, Final(cfg, InitialState(plan, map[]), es), Finish(id, DependencyMissing(Planned(subs))))
    ensures var s := Final(cfg, InitialState(plan, map[]), es);
            var s' := Next(cfg, s, Finish(id, DependencyMissing(Planned(subs))));
            && id in View(s')
            && (Requests(es, id) < 3 ==>
                 && View(s')[id].status == Draft && View(s')[id].error == None
                 && |s'.plan.nodes| == |s.plan.nodes| + |subs|)
            && (Requests(es, id) >= 3 ==>
                 && View(s')[id].status == Failed && View(s')[id].error == Some(InjectionLoopGuard)
                 && View(s').Keys == View(s).Keys)
  {
    var s0 := InitialState(plan, map[]);
    var s := Final(cfg, s0, es);
    assert Counted(s0, id) == 0;
    CountsRequests(cfg, s0, es, id);
    InitialInv(cfg, plan, map[]);
    hide Inv, Final, Runs, Startable, Enabled, Next;
    RunKeepsInv(cfg, s0, es);
    RequestEnds(cfg, s, id, subs);
  }

  lemma RequestEnds(cfg: Config, s: State, id: string, subs: seq<PlanNode>)
    requires Inv(cfg, s) && Enabled(cfg, s, Finish(id, DependencyMissing(Planned(subs))))
    requires cfg.hasPlanner && DistinctIds(subs)
    ensures var s' := Next(cfg, s, Finish(id, DependencyMissing(Planned(subs))));
            && id in View(s')
            && (Counted(s, id) < 3 ==>
                 && View(s')[id].status == Draft && View(s')[id].error == None
                 && |s'.plan.nodes| == |s.plan.nodes| + |subs|)
            && (Counted(s, id) >= 3 ==>
                 && View(s')[id].status == Failed && View(s')[id].error == Some(InjectionLoopGuard)
                 && View(s').Keys == View(s).Keys)
  {
    var o := DependencyMissing(Planned(subs));
    RunningMember(s.running, id);
    RunningInTable(View(s), Members(s.running), id);
    assert DistinctIds(s.plan.nodes) && (Counted(s, id) < 3 <==> Injects(cfg, s.counts, id, o));
    hide Inv, Enabled, Next, FinishNodes, FinishCounts, NextDepth, DistinctIds, NodeMap, Inject, OthersKept,
         SettledNode, PlanGraph, Injects;
    FinishedFields(cfg, s, id, o);
    if Counted(s, id) < 3 {
      BenignWhenDistinct(cfg, s, id, o);
      FinishInjects(cfg, s, id, o);
      OwnStays(View(s), View(Next(cfg, s, Finish(id, o))), id);
      InjectedLength(cfg, s.plan.nodes, s.counts, id, o);
    } else {
      FinishSettles(cfg, s, id, o);
      SettledShows(cfg, s.counts, View(s)[id], o);
    }
  }

  lemma BenignWhenDistinct(cfg: Config, s: State, id: string, o: Outcome)
    requires o.DependencyMissing? && o.answer.Planned? && DistinctIds(o.answer.subs)
    ensures Benign(cfg, s, Finish(id, o))
  {
  }

  lemma InjectedLength(cfg: Config, nodes: seq<PlanNode>, counts: map<string, nat>, id: string, o: Outcome)
    requires Injects(cfg, counts, id, o)
    ensures |FinishNodes(cfg, nodes, counts, id, o)| == |nodes| + |o.answer.subs|
  {
    hide SetNode, FindIndex, Remapped, TerminalIds, AllDeps, Rewired;
  }
}
