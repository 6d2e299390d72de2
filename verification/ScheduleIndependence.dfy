/**
 With handlers that are functions of their inputs and no injection, the interleaving and the
 semaphore size do not matter: every finished run leaves the plan a recursive definition gives.
 */
module ScheduleIndependence {
  import opened Dag
  import opened Models
  import opened ExecutorModel
  import opened ExecutorSafety
  import opened ExecutorRuns
  import opened ExecutorLiveness

  /** A handler table: what a capability answers on given inputs. */
  type Handlers = (string, map<string, string>) -> Outcome

  /** The handler of the node's assigned claw answers, or the one its id names if it has none. */
  function Answer(h: Handlers, node: PlanNode): Outcome {
    h(if node.assignedClaw != "" then node.assignedClaw else node.id, node.inputs)
  }

  /** The plan as it starts: nothing running, and no node's answer makes the planner inject anything. */
  ghost predicate Setting(cfg: Config, h: Handlers, counts: map<string, nat>, m: map<string, PlanNode>) {
    forall n :: n in m ==>
      m[n].id == n && m[n].status != Running && !Injects(cfg, counts, n, Answer(h, m[n]))
  }

  /** The finished form of a node that gets dispatched. */
  function Settled(cfg: Config, h: Handlers, counts: map<string, nat>, node: PlanNode): PlanNode {
    if Injects(cfg, counts, node.id, Answer(h, node)) then node
    else SettledNode(cfg, counts, node, Answer(h, node))
  }

  /** The node a run ends with: its handler's outcome if its dependencies complete, otherwise untouched. */
  ghost function Expected(cfg: Config, h: Handlers, counts: map<string, nat>, m: map<string, PlanNode>,
                          rank: map<string, nat>, n: string): PlanNode
    requires Closed(GraphOf(m)) && Ranked(GraphOf(m), rank) && n in m
    decreases rank[n]
  {
    assert forall d :: d in m[n].dependsOn ==> d in GraphOf(m)[n];
    if IsTerminalStatus(m[n].status) then m[n]
    else if forall d :: d in m[n].dependsOn ==> Expected(cfg, h, counts, m, rank, d).status == Completed
    then Settled(cfg, h, counts, m[n])
    else m[n]
  }

  /** The step's outcome is the handler's answer. */
  ghost predicate Answers(h: Handlers, s: State, e: Event) {
    e.Finish? ==> e.id in View(s) && e.outcome == Answer(h, View(s)[e.id])
  }

  ghost predicate AnswersAll(cfg: Config, h: Handlers, s: State, es: seq<Event>)
    decreases |es|
  {
    es == [] || (Answers(h, s, es[0]) && AnswersAll(cfg, h, Next(cfg, s, es[0]), es[1..]))
  }

  // ---- each node is as at the start, running, or settled ----

  ghost predicate Untouched(m0: map<string, PlanNode>, m: map<string, PlanNode>, counts0: map<string, nat>,
                            counts: map<string, nat>, n: string)
    requires n in m0 && n in m
  {
    && (m[n] == m0[n] || (!IsTerminalStatus(m0[n].status) && m[n] == m0[n].(status := Running)))
    && Attempts(counts, n) == Attempts(counts0, n)
  }

  ghost predicate HasSettled(cfg: Config, h: Handlers, counts0: map<string, nat>, m0: map<string, PlanNode>,
                             m: map<string, PlanNode>, n: string)
    requires n in m0 && n in m
  {
    !IsTerminalStatus(m0[n].status) && m[n] == Settled(cfg, h, counts0, m0[n]) && DependenciesMet(m[n], m)
  }

  ghost predicate Tracks(cfg: Config, h: Handlers, counts0: map<string, nat>, m0: map<string, PlanNode>,
                         m: map<string, PlanNode>, counts: map<string, nat>) {
    && m.Keys == m0.Keys
    && forall n :: n in m0 ==>
         Untouched(m0, m, counts0, counts, n) || HasSettled(cfg, h, counts0, m0, m, n)
  }

  lemma SettledIgnoresRunning(cfg: Config, counts: map<string, nat>, counts0: map<string, nat>, node: PlanNode,
                              o: Outcome)
    requires !Injects(cfg, counts, node.id, o) && !Injects(cfg, counts0, node.id, o)
    requires Attempts(counts, node.id) == Attempts(counts0, node.id)
    ensures SettledNode(cfg, counts, node.(status := Running), o) == SettledNode(cfg, counts0, node, o)
  {
  }

  lemma OthersTrack(cfg: Config, h: Handlers, counts0: map<string, nat>, m0: map<string, PlanNode>,
                    m: map<string, PlanNode>, m': map<string, PlanNode>,
                    counts: map<string, nat>, counts': map<string, nat>, id: string)
    requires Tracks(cfg, h, counts0, m0, m, counts)
    requires id in m && id in m' && m' == m[id := m'[id]] && m[id].status != Completed
    requires forall n :: n in m && n != id ==> Attempts(counts', n) == Attempts(counts, n)
    requires Untouched(m0, m', counts0, counts', id) || HasSettled(cfg, h, counts0, m0, m', id)
    ensures Tracks(cfg, h, counts0, m0, m', counts')
  {
    hide Settled, Attempts;
    assert OthersKept(m, m', id);
    forall n | n in m0 && n != id
      ensures Untouched(m0, m', counts0, counts', n) || HasSettled(cfg, h, counts0, m0, m', n)
    {
      if HasSettled(cfg, h, counts0, m0, m, n) {
        MetStays(m, m', id, m[n]);
      }
    }
  }

  lemma UnstartedUntouched(cfg: Config, h: Handlers, counts0: map<string, nat>, m0: map<string, PlanNode>,
                           m: map<string, PlanNode>, counts: map<string, nat>, n: string)
    requires Setting(cfg, h, counts0, m0) && Tracks(cfg, h, counts0, m0, m, counts)
    requires n in m && !IsTerminalStatus(m[n].status)
    ensures n in m0 && !IsTerminalStatus(m0[n].status) && Untouched(m0, m, counts0, counts, n)
  {
    hide DependenciesMet;
  }

  lemma StartTracks(cfg: Config, h: Handlers, counts0: map<string, nat>, m0: map<string, PlanNode>, s: State,
                    id: string)
    requires Setting(cfg, h, counts0, m0)
    requires Inv(cfg, s) && Enabled(cfg, s, Start(id))
    requires Tracks(cfg, h, counts0, m0, View(s), s.counts)
    ensures Tracks(cfg, h, counts0, m0, View(Next(cfg, s, Start(id))), s.counts)
  {
    hide Inv, Settled, Attempts, Tracks, NodeMap, StartNodes, OthersKept, DependenciesMet, Setting;
    StartMarksRunning(cfg, s, id);
    UnstartedUntouched(cfg, h, counts0, m0, View(s), s.counts, id);
    OthersTrack(cfg, h, counts0, m0, View(s), View(Next(cfg, s, Start(id))), s.counts, s.counts, id);
  }

  lemma AnswerOfRunning(h: Handlers, node: PlanNode)
    ensures Answer(h, node.(status := Running)) == Answer(h, node)
  {
  }

  lemma SettleTracks(cfg: Config, h: Handlers, counts0: map<string, nat>, m0: map<string, PlanNode>,
                     m: map<string, PlanNode>, counts: map<string, nat>, id: string, o: Outcome)
    requires Setting(cfg, h, counts0, m0) && Tracks(cfg, h, counts0, m0, m, counts)
    requires id in m && m[id].status == Running && DependenciesMet(m[id], m) && o == Answer(h, m[id])
    ensures m[id].id == id && !Injects(cfg, counts, id, o)
    ensures Tracks(cfg, h, counts0, m0, m[id := SettledNode(cfg, counts, m[id], o)], FinishCounts(cfg, counts, id, o))
  {
    hide Tracks, Answer, SettledNode;
    UnstartedUntouched(cfg, h, counts0, m0, m, counts, id);
    assert m[id] == m0[id].(status := Running);
    AnswerOfRunning(h, m0[id]);
    SettledIgnoresRunning(cfg, counts, counts0, m0[id], o);
    var m' := m[id := SettledNode(cfg, counts, m[id], o)];
    SettledMet(m, m', id);
    OthersTrack(cfg, h, counts0, m0, m, m', counts, FinishCounts(cfg, counts, id, o), id);
  }

  lemma SettledMet(m: map<string, PlanNode>, m': map<string, PlanNode>, id: string)
    requires id in m && id in m' && m' == m[id := m'[id]] && m'[id].dependsOn == m[id].dependsOn
    requires DependenciesMet(m[id], m) && m[id].status != Completed
    ensures DependenciesMet(m'[id], m')
  {
  }

  lemma FinishTracks(cfg: Config, h: Handlers, counts0: map<string, nat>, m0: map<string, PlanNode>,
                     s: State, id: string, o: Outcome)
    requires Setting(cfg, h, counts0, m0)
    requires Inv(cfg, s) && Enabled(cfg, s, Finish(id, o)) && Answers(h, s, Finish(id, o))
    requires Tracks(cfg, h, counts0, m0, View(s), s.counts)
    ensures !Injects(cfg, s.counts, id, o)
    ensures var s' := Next(cfg, s, Finish(id, o)); Tracks(cfg, h, counts0, m0, View(s'), s'.counts)
  {
    hide Settled, Attempts, Tracks, NodeMap, FinishNodes, OthersKept, DependenciesMet, Setting, SettledNode,
         DistinctIds, CompletedClosed, NextDepth, FinishCounts;
    SettleTracks(cfg, h, counts0, m0, View(s), s.counts, id, o);
    FinishSettles(cfg, s, id, o);
  }

  /** Each node keeps its place in the list. */
  ghost predicate SamePlaces(a: seq<PlanNode>, b: seq<PlanNode>) {
    |a| == |b| && forall i :: 0 <= i < |a| ==> a[i].id == b[i].id
  }

  lemma StepKeepsPlaces(cfg: Config, s: State, e: Event)
    requires e.Finish? ==> !Injects(cfg, s.counts, e.id, e.outcome)
    ensures SamePlaces(s.plan.nodes, Next(cfg, s, e).plan.nodes)
  {
    hide FindIndex, SettledNode, NextDepth, FinishCounts, CollectRunnable, DerivePlanStatus;
    match e
    case _ =>
  }

  lemma StepTracks(cfg: Config, h: Handlers, counts0: map<string, nat>, m0: map<string, PlanNode>, s: State, e: Event)
    requires Setting(cfg, h, counts0, m0)
    requires Inv(cfg, s) && Enabled(cfg, s, e) && Answers(h, s, e)
    requires Tracks(cfg, h, counts0, m0, View(s), s.counts)
    ensures var s' := Next(cfg, s, e);
            Tracks(cfg, h, counts0, m0, View(s'), s'.counts) && SamePlaces(s.plan.nodes, s'.plan.nodes)
  {
    hide Inv, Tracks, NodeMap, Setting, Answers, SamePlaces, StartNodes, FinishNodes, CollectRunnable,
         DerivePlanStatus;
    match e {
      case Start(id) => StartTracks(cfg, h, counts0, m0, s, id);
      case Finish(id, o) => FinishTracks(cfg, h, counts0, m0, s, id, o);
      case _ =>
    }
    StepKeepsPlaces(cfg, s, e);
  }

  lemma {:induction false} RunTracks(cfg: Config, h: Handlers, counts0: map<string, nat>, m0: map<string, PlanNode>,
                                     s: State, es: seq<Event>)
    requires Setting(cfg, h, counts0, m0)
    requires Inv(cfg, s) && Runs(cfg, s, es) && AnswersAll(cfg, h, s, es)
    requires Tracks(cfg, h, counts0, m0, View(s), s.counts)
    ensures var s' := Final(cfg, s, es);
            Tracks(cfg, h, counts0, m0, View(s'), s'.counts) && SamePlaces(s.plan.nodes, s'.plan.nodes)
    decreases |es|
  {
    hide Inv, Tracks, View, Setting, Answers, Enabled, Benign, Next;
    if es != [] {
      StepTracks(cfg, h, counts0, m0, s, es[0]);
      StepKeepsInv(cfg, s, es[0]);
      RunTracks(cfg, h, counts0, m0, Next(cfg, s, es[0]), es[1..]);
    }
  }

  // ---- when nothing runs and nothing can run ----

  ghost predicate Stalled(m: map<string, PlanNode>) {
    forall n :: n in m ==> m[n].status != Running && !IsRunnable(m[n], m)
  }

  lemma MetIffExpected(cfg: Config, h: Handlers, counts0: map<string, nat>, m0: map<string, PlanNode>,
                       rank: map<string, nat>, m: map<string, PlanNode>, n: string)
    requires Closed(GraphOf(m0)) && Ranked(GraphOf(m0), rank) && n in m0 && m.Keys == m0.Keys
    requires forall d :: d in m0[n].dependsOn ==> d in m0 && m[d] == Expected(cfg, h, counts0, m0, rank, d)
    ensures !IsTerminalStatus(m0[n].status) ==>
      Expected(cfg, h, counts0, m0, rank, n)
      == if DependenciesMet(m0[n], m) then Settled(cfg, h, counts0, m0[n]) else m0[n]
    ensures IsTerminalStatus(m0[n].status) ==> Expected(cfg, h, counts0, m0, rank, n) == m0[n]
  {
    hide Settled, IsTerminalStatus;
  }

  lemma SettledDeps(cfg: Config, h: Handlers, counts: map<string, nat>, node: PlanNode)
    ensures Settled(cfg, h, counts, node).dependsOn == node.dependsOn
  {
  }

  /** A stalled table that tracks the start is the expected one. */
  lemma {:induction false} StalledIsExpected(cfg: Config, h: Handlers, counts0: map<string, nat>, m0: map<string,
                              PlanNode>,
                                             rank: map<string, nat>, m: map<string, PlanNode>, counts: map<string, nat>,
                                             n: string)
    requires Setting(cfg, h, counts0, m0) && Tracks(cfg, h, counts0, m0, m, counts) && Stalled(m)
    requires Closed(GraphOf(m0)) && Ranked(GraphOf(m0), rank) && n in m0
    ensures m[n] == Expected(cfg, h, counts0, m0, rank, n)
    decreases rank[n]
  {
    hide Settled, DependenciesMet, Expected, Setting;
    forall d | d in m0[n].dependsOn
      ensures d in m0 && m[d] == Expected(cfg, h, counts0, m0, rank, d)
    {
      assert d in GraphOf(m0)[n];
      StalledIsExpected(cfg, h, counts0, m0, rank, m, counts, d);
    }
    MetIffExpected(cfg, h, counts0, m0, rank, m, n);
    SettledDeps(cfg, h, counts0, m0[n]);
    StalledCases(cfg, h, counts0, m0, m, counts, n);
  }

  lemma StalledCases(cfg: Config, h: Handlers, counts0: map<string, nat>, m0: map<string, PlanNode>,
                     m: map<string, PlanNode>, counts: map<string, nat>, n: string)
    requires Setting(cfg, h, counts0, m0) && Tracks(cfg, h, counts0, m0, m, counts) && Stalled(m) && n in m0
    ensures m[n] == if !IsTerminalStatus(m0[n].status) && DependenciesMet(m0[n], m)
                    then Settled(cfg, h, counts0, m0[n]) else m0[n]
  {
    hide Settled;
    SettledDeps(cfg, h, counts0, m0[n]);
  }

  // ---- whole runs ----

  lemma StopIsStalled(cfg: Config, s: State)
    requires Inv(cfg, s) && Enabled(cfg, s, Stop)
    ensures var s' := Next(cfg, s, Stop); Stalled(View(s')) && s'.plan.status == DerivePlanStatus(s'.plan.nodes)
  {
    NothingRuns(cfg, s);
    NoneRunnable(s.plan.nodes);
    hide Inv, Enabled, IsRunnable, DerivePlanStatus, CollectRunnable, NodeMap;
  }

  lemma InitialTracks(cfg: Config, h: Handlers, counts: map<string, nat>, m0: map<string, PlanNode>)
    ensures Tracks(cfg, h, counts, m0, m0, counts)
  {
  }

  /** Every finished run ends with the expected node for each id, whatever its interleaving. */
  lemma FinishedIsExpected(cfg: Config, h: Handlers, plan: ExecutionPlan, counts: map<string, nat>,
                           rank: map<string, nat>, es: seq<Event>)
    requires Startable(plan.nodes) && Setting(cfg, h, counts, NodeMap(plan.nodes))
    requires Closed(PlanGraph(plan.nodes)) && Ranked(PlanGraph(plan.nodes), rank)
    requires Runs(cfg, InitialState(plan, counts), es) && AnswersAll(cfg, h, InitialState(plan, counts), es)
    requires Final(cfg, InitialState(plan, counts), es).phase == Finished
    ensures var s := Final(cfg, InitialState(plan, counts), es);
            && View(s).Keys == NodeMap(plan.nodes).Keys
            && (forall n :: n in View(s) ==> View(s)[n] == Expected(cfg, h, counts, NodeMap(plan.nodes), rank, n))
            && SamePlaces(plan.nodes, s.plan.nodes)
            && s.plan.status == DerivePlanStatus(s.plan.nodes)
  {
    hide Inv, Stalled, Setting, Expected, NodeMap, Acyclic, CompletedClosed, SamePlaces, Ranked, Closed, Startable;
    var s0 := InitialState(plan, counts);
    var m0 := NodeMap(plan.nodes);
    InitialInv(cfg, plan, counts);
    InitialTracks(cfg, h, counts, m0);
    RunTracks(cfg, h, counts, m0, s0, es);
    var last := LastStep(cfg, s0, es);
    StopIsStalled(cfg, last);
    var s := Final(cfg, s0, es);
    forall n | n in View(s) ensures View(s)[n] == Expected(cfg, h, counts, m0, rank, n) {
      StalledIsExpected(cfg, h, counts, m0, rank, View(s), s.counts, n);
    }
  }

  /** Expectations do not depend on the semaphore size. */
  lemma {:induction false} ExpectedIgnoresConcurrency(cfg: Config, cfg': Config, h: Handlers, counts: map<string, nat>,
                                                      m: map<string, PlanNode>, rank: map<string, nat>, n: string)
    requires Closed(GraphOf(m)) && Ranked(GraphOf(m), rank) && n in m
    requires cfg' == cfg.(maxConcurrency := cfg'.maxConcurrency)
    ensures Expected(cfg, h, counts, m, rank, n) == Expected(cfg', h, counts, m, rank, n)
    decreases rank[n]
  {
    forall d | d in m[n].dependsOn
      ensures d in m && Expected(cfg, h, counts, m, rank, d) == Expected(cfg', h, counts, m, rank, d)
    {
      assert d in GraphOf(m)[n];
      ExpectedIgnoresConcurrency(cfg, cfg', h, counts, m, rank, d);
    }
    SettledIgnoresConcurrency(cfg, cfg', h, counts, m[n]);
    ExpectedUnfold(cfg, h, counts, m, rank, n);
    ExpectedUnfold(cfg', h, counts, m, rank, n);
  }

  lemma ExpectedUnfold(cfg: Config, h: Handlers, counts: map<string, nat>, m: map<string, PlanNode>,
                       rank: map<string, nat>, n: string)
    requires Closed(GraphOf(m)) && Ranked(GraphOf(m), rank) && n in m
    ensures forall d :: d in m[n].dependsOn ==> d in m
    ensures Expected(cfg, h, counts, m, rank, n)
         == if IsTerminalStatus(m[n].status) then m[n]
            else if forall d :: d in m[n].dependsOn ==> Expected(cfg, h, counts, m, rank, d).status == Completed
            then Settled(cfg, h, counts, m[n])
            else m[n]
  {
    assert forall d :: d in m[n].dependsOn ==> d in GraphOf(m)[n];
  }

  lemma SettledIgnoresConcurrency(cfg: Config, cfg': Config, h: Handlers, counts: map<string, nat>, node: PlanNode)
    requires cfg' == cfg.(maxConcurrency := cfg'.maxConcurrency)
    ensures Settled(cfg, h, counts, node) == Settled(cfg', h, counts, node)
  {
  }

  lemma SamePlan(base: seq<PlanNode>, a: seq<PlanNode>, b: seq<PlanNode>)
    requires DistinctIds(base) && SamePlaces(base, a) && SamePlaces(base, b)
    requires NodeMap(a) == NodeMap(b)
    ensures a == b
  {
    forall i | 0 <= i < |a| ensures a[i] == b[i] {
      NodeMapAt(a, i);
      NodeMapAt(b, i);
    }
  }

  /** Two finished runs of one plan, with any semaphore sizes and any interleavings, end with the same plan. */
  lemma SchedulesAgree(cfg: Config, cfg': Config, h: Handlers, plan: ExecutionPlan, counts: map<string, nat>,
                       es: seq<Event>, es': seq<Event>)
    requires cfg' == cfg.(maxConcurrency := cfg'.maxConcurrency)
    requires Startable(plan.nodes) && WellFormed(plan.nodes) && Setting(cfg, h, counts, NodeMap(plan.nodes))
    requires Runs(cfg, InitialState(plan, counts), es) && AnswersAll(cfg, h, InitialState(plan, counts), es)
    requires Runs(cfg', InitialState(plan, counts), es') && AnswersAll(cfg', h, InitialState(plan, counts), es')
    requires Final(cfg, InitialState(plan, counts), es).phase == Finished
    requires Final(cfg', InitialState(plan, counts), es').phase == Finished
    ensures var s, s' := Final(cfg, InitialState(plan, counts), es), Final(cfg', InitialState(plan, counts), es');
            s.plan.nodes == s'.plan.nodes && s.plan.status == s'.plan.status
  {
    hide Startable, Setting, Expected, NodeMap, SamePlaces, Runs, AnswersAll, Final, DerivePlanStatus, Ranked,
         PlanGraph;
    StartableRanked(plan.nodes);
    var rank :| Ranked(PlanGraph(plan.nodes), rank);
    SettingIgnoresConcurrency(cfg, cfg', h, counts, NodeMap(plan.nodes));
    FinishedIsExpected(cfg, h, plan, counts, rank, es);
    FinishedIsExpected(cfg', h, plan, counts, rank, es');
    var s, s' := Final(cfg, InitialState(plan, counts), es), Final(cfg', InitialState(plan, counts), es');
    forall n | n in View(s) ensures n in View(s') && View(s)[n] == View(s')[n] {
      PlanExpectation(cfg, cfg', h, plan, counts, rank, n);
    }
    SamePlan(plan.nodes, s.plan.nodes, s'.plan.nodes);
  }

  lemma PlanExpectation(cfg: Config, cfg': Config, h: Handlers, plan: ExecutionPlan, counts: map<string, nat>,
                        rank: map<string, nat>, n: string)
    requires Closed(PlanGraph(plan.nodes)) && Ranked(PlanGraph(plan.nodes), rank) && n in NodeMap(plan.nodes)
    requires cfg' == cfg.(maxConcurrency := cfg'.maxConcurrency)
    ensures Expected(cfg, h, counts, NodeMap(plan.nodes), rank, n)
         == Expected(cfg', h, counts, NodeMap(plan.nodes), rank, n)
  {
    ExpectedIgnoresConcurrency(cfg, cfg', h, counts, NodeMap(plan.nodes), rank, n);
  }

  lemma StartableRanked(nodes: seq<PlanNode>)
    requires WellFormed(nodes)
    ensures DistinctIds(nodes) && Closed(PlanGraph(nodes)) && exists rank :: Ranked(PlanGraph(nodes), rank)
  {
    WellFormedRanked(nodes);
  }

  lemma SettingIgnoresConcurrency(cfg: Config, cfg': Config, h: Handlers, counts: map<string, nat>, m: map<string,
                              PlanNode>)
    requires cfg' == cfg.(maxConcurrency := cfg'.maxConcurrency) && Setting(cfg, h, counts, m)
    ensures Setting(cfg', h, counts, m)
  {
  }
}
