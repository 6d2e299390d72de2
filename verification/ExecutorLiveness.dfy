/** No deadlock, truthful final status, and exactly when the executor can make progress. */
module ExecutorLiveness {
  import opened Wrappers
  import opened Dag
  import opened Models
  import opened Normalization
  import opened NormalizationTheorems
  import opened InjectionTheorems
  import opened ExecutorModel
  import opened ExecutorSafety
  import opened ExecutorRuns

  // ---- why a node can be left unstarted ----

  /** `n` transitively depends on a node that failed, was cancelled, or lacks its tool. */
  ghost predicate Blocked(m: map<string, PlanNode>, n: string) {
    exists f :: f in m && m[f].status in {Failed, Cancelled, NeedsTool} && DependsOn(GraphOf(m), n, f)
  }

  /** Some dependency of an unstarted node is not completed when nothing is runnable. */
  lemma UnmetDependency(nodes: seq<PlanNode>, n: string) returns (d: string)
    requires WellFormed(nodes) && CollectRunnable(nodes) == []
    requires n in NodeMap(nodes) && NodeMap(nodes)[n].status in {Draft, Ready}
    ensures d in NodeMap(nodes) && d in PlanGraph(nodes)[n] && NodeMap(nodes)[d].status != Completed
  {
    hide Acyclic, DistinctIds;
    var m := NodeMap(nodes);
    assert m[n] in nodes;
    assert m[n] !in CollectRunnable(nodes);
    d :| d in m[n].dependsOn && !(d in m && m[d].status == Completed);
    assert d in PlanGraph(nodes)[n];
  }

  lemma BlockedThrough(m: map<string, PlanNode>, n: string, d: string)
    requires n in m && d in m && d in GraphOf(m)[n]
    requires m[d].status in {Failed, Cancelled, NeedsTool} || Blocked(m, d)
    ensures Blocked(m, n)
  {
    var g := GraphOf(m);
    EdgeReaches(g, n, d);
    if m[d].status !in {Failed, Cancelled, NeedsTool} {
      var f :| f in m && m[f].status in {Failed, Cancelled, NeedsTool} && DependsOn(g, d, f);
      ReachesTransitive(g, n, d, f);
    }
  }

  lemma {:induction false} StalledIsBlocked(nodes: seq<PlanNode>, rank: map<string, nat>, n: string)
    requires WellFormed(nodes) && CollectRunnable(nodes) == [] && Ranked(PlanGraph(nodes), rank)
    requires forall k :: k in NodeMap(nodes) ==> NodeMap(nodes)[k].status != Running
    requires n in NodeMap(nodes) && NodeMap(nodes)[n].status in {Draft, Ready}
    ensures Blocked(NodeMap(nodes), n)
    decreases rank[n]
  {
    hide WellFormed, CollectRunnable, Blocked;
    var m := NodeMap(nodes);
    var d := UnmetDependency(nodes, n);
    if m[d].status in {Draft, Ready} {
      StalledIsBlocked(nodes, rank, d);
    }
    BlockedThrough(m, n, d);
  }

  // ---- the final status ----

  /** The verdict on a plan where nothing runs and nothing can run. */
  ghost predicate Truthful(m: map<string, PlanNode>, status: PlanStatus) {
    && status in {Completed, Failed, Cancelled}
    && (status == Completed <==> forall n :: n in m ==> m[n].status == Completed)
    && (forall n :: n in m && m[n].status !in {Completed, Failed, Cancelled, NeedsTool} ==>
         m[n].status in {Draft, Ready} && Blocked(m, n))
    && (status == Cancelled ==> exists n :: n in m && m[n].status == Cancelled)
    && (status == Failed ==> exists n :: n in m && m[n].status in {Failed, NeedsTool})
  }

  /** A status occurs in the list exactly when some node of the table has it. */
  ghost predicate SameStatuses(nodes: seq<PlanNode>) {
    && (forall n :: n in NodeMap(nodes) ==> NodeMap(nodes)[n].status in Statuses(nodes))
    && (forall st :: st in Statuses(nodes) ==> exists n :: n in NodeMap(nodes) && NodeMap(nodes)[n].status == st)
  }

  lemma StatusesOfView(nodes: seq<PlanNode>)
    requires DistinctIds(nodes)
    ensures SameStatuses(nodes)
  {
    var m := NodeMap(nodes);
    forall st | st in Statuses(nodes) ensures exists n :: n in m && m[n].status == st {
      var i :| 0 <= i < |nodes| && nodes[i].status == st;
      NodeMapAt(nodes, i);
      assert m[nodes[i].id].status == st;
    }
    forall n | n in m ensures m[n].status in Statuses(nodes) {
      var i :| 0 <= i < |nodes| && nodes[i] == m[n];
    }
  }

  lemma StalledVerdict(nodes: seq<PlanNode>)
    requires WellFormed(nodes) && CollectRunnable(nodes) == []
    requires forall n :: n in NodeMap(nodes) ==> NodeMap(nodes)[n].status != Running
    ensures Truthful(NodeMap(nodes), DerivePlanStatus(nodes))
  {
    WellFormedRanked(nodes);
    assert DistinctIds(nodes);
    hide WellFormed, CollectRunnable, Blocked, Statuses, NodeMap, Truthful, DerivePlanStatus, SameStatuses;
    var rank :| Ranked(PlanGraph(nodes), rank);
    StatusesOfView(nodes);
    forall n | n in NodeMap(nodes) && NodeMap(nodes)[n].status in {Draft, Ready}
      ensures Blocked(NodeMap(nodes), n)
    {
      StalledIsBlocked(nodes, rank, n);
    }
    VerdictFromStatuses(nodes);
  }

  lemma VerdictFromStatuses(nodes: seq<PlanNode>)
    requires SameStatuses(nodes)
    requires forall n :: n in NodeMap(nodes) ==> NodeMap(nodes)[n].status != Running
    requires forall n :: n in NodeMap(nodes) && NodeMap(nodes)[n].status in {Draft, Ready} ==>
      Blocked(NodeMap(nodes), n)
    ensures Truthful(NodeMap(nodes), DerivePlanStatus(nodes))
  {
    hide Blocked, Statuses, NodeMap, Truthful;
    var m := NodeMap(nodes);
    StatusCases(nodes);
    if n :| n in m && m[n].status in {Draft, Ready} {
      BlockedHasCause(m, n);
    }
    CasesAreTruthful(m, DerivePlanStatus(nodes));
  }

  ghost predicate SomeHas(m: map<string, PlanNode>, status: PlanStatus) {
    exists n :: n in m && m[n].status == status
  }

  /** What each derived status says about the nodes of the table. */
  ghost predicate Cases(m: map<string, PlanNode>, status: PlanStatus) {
    && status in {Completed, Failed, Cancelled, Running}
    && (status == Failed <==> SomeHas(m, Failed) || (SomeHas(m, NeedsTool) && !SomeHas(m, Cancelled)))
    && (status == Cancelled <==> SomeHas(m, Cancelled) && !SomeHas(m, Failed))
    && (status in {Completed, Running} ==> forall n :: n in m ==> m[n].status !in {Failed, Cancelled, NeedsTool})
    && (status == Completed ==> forall n :: n in m ==> m[n].status == Completed)
    && (status == Running ==> exists n :: n in m && m[n].status in {Draft, Ready, Running})
  }

  lemma StatusCases(nodes: seq<PlanNode>)
    requires SameStatuses(nodes)
    ensures Cases(NodeMap(nodes), DerivePlanStatus(nodes))
  {
    hide NodeMap, Statuses;
  }

  lemma CasesAreTruthful(m: map<string, PlanNode>, status: PlanStatus)
    requires Cases(m, status)
    requires forall n :: n in m ==> m[n].status != Running
    requires forall n :: n in m && m[n].status in {Draft, Ready} ==> Blocked(m, n)
    requires (exists n :: n in m && m[n].status in {Draft, Ready}) ==>
      exists f :: f in m && m[f].status in {Failed, Cancelled, NeedsTool}
    ensures Truthful(m, status)
  {
    hide Blocked;
  }

  lemma BlockedHasCause(m: map<string, PlanNode>, n: string)
    requires Blocked(m, n)
    ensures exists f :: f in m && m[f].status in {Failed, Cancelled, NeedsTool}
  {
  }

  lemma WellFormedRanked(nodes: seq<PlanNode>)
    requires WellFormed(nodes)
    ensures exists rank :: Ranked(PlanGraph(nodes), rank)
  {
    AcyclicIffRanked(PlanGraph(nodes));
  }

  /** When the loop ends, no node runs, the status is final, and it tells the truth about the nodes. */
  lemma StopIsTruthful(cfg: Config, s: State)
    requires Inv(cfg, s) && Enabled(cfg, s, Stop) && WellFormed(s.plan.nodes)
    ensures Truthful(View(Next(cfg, s, Stop)), Next(cfg, s, Stop).plan.status)
  {
    NothingRuns(cfg, s);
    hide Inv, WellFormed, CollectRunnable, Truthful, DerivePlanStatus, NodeMap;
    StalledVerdict(s.plan.nodes);
  }

  lemma NothingRuns(cfg: Config, s: State)
    requires Inv(cfg, s) && Enabled(cfg, s, Stop)
    ensures CollectRunnable(s.plan.nodes) == [] && DistinctIds(s.plan.nodes)
    ensures forall n :: n in View(s) ==> View(s)[n].status != Running
  {
    hide DistinctIds, CompletedClosed, PendingRunnable, DependenciesMet, CollectRunnable, NodeMap;
    InFlightBounded(cfg, s);
  }

  /** A finished run ended with the step that leaves the loop. */
  lemma {:induction false} LastStep(cfg: Config, s: State, es: seq<Event>) returns (last: State)
    requires Inv(cfg, s) && Runs(cfg, s, es) && s.phase != Finished
    requires Final(cfg, s, es).phase == Finished
    ensures Inv(cfg, last) && Enabled(cfg, last, Stop) && Final(cfg, s, es) == Next(cfg, last, Stop)
    ensures WellFormed(s.plan.nodes) && AllSafe(cfg, s, es) ==> WellFormed(last.plan.nodes)
    decreases |es|
  {
    hide Inv, Benign, Safe, WellFormed;
    StepKeepsInv(cfg, s, es[0]);
    var s' := Next(cfg, s, es[0]);
    if s'.phase == Finished {
      NothingAfterStop(cfg, s', es[1..]);
      last := s;
    } else {
      if WellFormed(s.plan.nodes) && Safe(cfg, s, es[0]) {
        StepKeepsWellFormed(cfg, s, es[0]);
      }
      last := LastStep(cfg, s', es[1..]);
    }
  }

  /** A finished run never reports RUNNING, reports COMPLETED truthfully, and leaves only blocked nodes. */
  lemma FinishedRunIsTruthful(cfg: Config, plan: ExecutionPlan, counts: map<string, nat>, es: seq<Event>)
    requires Startable(plan.nodes) && WellFormed(plan.nodes)
    requires Runs(cfg, InitialState(plan, counts), es) && AllSafe(cfg, InitialState(plan, counts), es)
    requires Final(cfg, InitialState(plan, counts), es).phase == Finished
    ensures var s := Final(cfg, InitialState(plan, counts), es); Truthful(View(s), s.plan.status)
  {
    hide Inv, Truthful, Startable, WellFormed, Enabled, Next;
    InitialInv(cfg, plan, counts);
    var last := LastStep(cfg, InitialState(plan, counts), es);
    StopIsTruthful(cfg, last);
  }

  // ---- exactly when a finished run reports RUNNING ----

  predicate NoneUnsuccessful(m: map<string, PlanNode>) {
    forall n :: n in m ==> m[n].status !in {Failed, Cancelled, NeedsTool}
  }

  /** `n` is unstarted and names an unknown node, or waits for itself. */
  ghost predicate Hopeless(m: map<string, PlanNode>, n: string) {
    && n in m && m[n].status in {Draft, Ready}
    && ((exists d :: d in m[n].dependsOn && d !in m) || DependsOn(GraphOf(m), n, n))
  }

  /**
   RUNNING means hopeless nodes and nothing unsuccessful; COMPLETED means that every node completed;
   a failure outranks a cancellation, which outranks a missing tool.
   */
  ghost predicate ExactVerdict(m: map<string, PlanNode>, status: PlanStatus) {
    && (status == Running <==> NoneUnsuccessful(m) && exists n :: Hopeless(m, n))
    && (status == Completed <==> forall n :: n in m ==> m[n].status == Completed)
    && (status == Failed <==> SomeHas(m, Failed) || (SomeHas(m, NeedsTool) && !SomeHas(m, Cancelled)))
    && (status == Cancelled <==> SomeHas(m, Cancelled) && !SomeHas(m, Failed))
  }

  lemma UnmetIsUnstarted(m: map<string, PlanNode>, n: string)
    requires NoneUnsuccessful(m) && forall k :: k in m ==> m[k].status != Running
    requires n in m && !DependenciesMet(m[n], m) && forall d :: d in m[n].dependsOn ==> d in m
    ensures exists d :: d in m && d in GraphOf(m)[n] && m[d].status in {Draft, Ready}
  {
    var d :| d in m[n].dependsOn && !(d in m && m[d].status == Completed);
    assert d in GraphOf(m)[n];
  }

  /** Where nothing failed, runs or can run, an unstarted node means an unknown dependency or a cycle. */
  lemma UnstartedMeansHopeless(m: map<string, PlanNode>, start: string)
    requires NoneUnsuccessful(m)
    requires forall n :: n in m ==> m[n].status != Running && !IsRunnable(m[n], m)
    requires start in m && m[start].status in {Draft, Ready}
    ensures exists n :: Hopeless(m, n)
  {
    hide GraphOf, DependsOn, NoneUnsuccessful, DependenciesMet;
    GraphKeys(m);
    var g, r := GraphOf(m), set n | n in m && m[n].status in {Draft, Ready};
    if n :| n in r && exists d :: d in m[n].dependsOn && d !in m {
      assert Hopeless(m, n);
    } else {
      forall n | n in r ensures g[n] * r != {} {
        UnmetIsUnstarted(m, n);
        var d :| d in m && d in g[n] && m[d].status in {Draft, Ready};
        assert d in g[n] * r;
      }
      var n := StuckHasCycle(g, r, start);
      assert Hopeless(m, n);
    }
  }

  lemma GraphKeys(m: map<string, PlanNode>)
    ensures GraphOf(m).Keys == m.Keys
  {
  }

  /** The verdict on any plan where nothing runs and nothing can run, cyclic or with unknown ids too. */
  lemma StoppedVerdict(nodes: seq<PlanNode>)
    requires DistinctIds(nodes) && CollectRunnable(nodes) == []
    requires forall n :: n in NodeMap(nodes) ==> NodeMap(nodes)[n].status != Running
    ensures ExactVerdict(NodeMap(nodes), DerivePlanStatus(nodes))
  {
    NoneRunnable(nodes);
    StatusesOfView(nodes);
    StatusCases(nodes);
    hide DistinctIds, CollectRunnable, NodeMap, DerivePlanStatus, SameStatuses, Cases, ExactVerdict;
    CasesAreExact(NodeMap(nodes), DerivePlanStatus(nodes));
  }

  lemma CasesAreExact(m: map<string, PlanNode>, status: PlanStatus)
    requires Cases(m, status)
    requires forall n :: n in m ==> m[n].status != Running && !IsRunnable(m[n], m)
    ensures ExactVerdict(m, status)
  {
    hide IsRunnable, Hopeless;
    HopelessIsUnstarted(m);
    if NoneUnsuccessful(m) {
      if n :| n in m && m[n].status in {Draft, Ready} {
        UnstartedMeansHopeless(m, n);
      }
    }
  }

  lemma NoneRunnable(nodes: seq<PlanNode>)
    requires CollectRunnable(nodes) == []
    ensures forall n :: n in NodeMap(nodes) ==> !IsRunnable(NodeMap(nodes)[n], NodeMap(nodes))
  {
    hide IsRunnable;
    forall n | n in NodeMap(nodes) ensures !IsRunnable(NodeMap(nodes)[n], NodeMap(nodes)) {
      assert NodeMap(nodes)[n] in nodes;
      assert NodeMap(nodes)[n] !in CollectRunnable(nodes);
    }
  }

  lemma HopelessIsUnstarted(m: map<string, PlanNode>)
    ensures forall n :: Hopeless(m, n) ==> n in m && m[n].status in {Draft, Ready}
  {
  }

  /**
   For every run whose injected answers have distinct ids, safe or not: it reports RUNNING at its end
   exactly when no node is unsuccessful and an unstarted one names an unknown node or waits for itself.
   */
  lemma FinishedRunningIff(cfg: Config, plan: ExecutionPlan, counts: map<string, nat>, es: seq<Event>)
    requires Startable(plan.nodes) && Runs(cfg, InitialState(plan, counts), es)
    requires Final(cfg, InitialState(plan, counts), es).phase == Finished
    ensures var s := Final(cfg, InitialState(plan, counts), es);
            ExactVerdict(View(s), s.plan.status)
  {
    hide Inv, Startable, Enabled, ExactVerdict, Next, View;
    InitialInv(cfg, plan, counts);
    var last := LastStep(cfg, InitialState(plan, counts), es);
    StopVerdict(cfg, last);
  }

  lemma StopVerdict(cfg: Config, s: State)
    requires Inv(cfg, s) && Enabled(cfg, s, Stop)
    ensures var s' := Next(cfg, s, Stop);
            ExactVerdict(View(s'), s'.plan.status)
  {
    NothingRuns(cfg, s);
    hide Inv, Enabled, ExactVerdict, NodeMap, DerivePlanStatus, CollectRunnable;
    StoppedVerdict(s.plan.nodes);
  }

  lemma NothingAfterStop(cfg: Config, s: State, es: seq<Event>)
    requires s.phase == Finished && Runs(cfg, s, es)
    ensures es == []
  {
    if es != [] {
      match es[0]
      case _ =>
    }
  }

  // ---- progress ----

  /** Nothing waits for the semaphore in vain: some step is enabled unless the semaphore admits no one. */
  lemma ProgressIff(cfg: Config, s: State)
    requires Inv(cfg, s) && s.phase != Finished
    ensures (exists e :: Enabled(cfg, s, e)) <==> cfg.maxConcurrency > 0 || s.pending == multiset{}
  {
    hide DistinctIds, CompletedClosed, RunningHeld, PendingRunnable, CollectRunnable, Once, Members;
    InFlightBounded(cfg, s);
    if s.phase == AtHead {
      assert Enabled(cfg, s, Dispatch) || Enabled(cfg, s, Stop);
    } else if s.running != multiset{} {
      var n :| n in s.running;
      assert Enabled(cfg, s, Finish(n, Returned(None)));
    } else if s.pending == multiset{} {
      assert Enabled(cfg, s, Join);
    } else if cfg.maxConcurrency > 0 {
      var n :| n in s.pending;
      assert Enabled(cfg, s, Start(n));
    } else {
      forall e ensures !Enabled(cfg, s, e) {
        match e
        case _ =>
      }
    }
  }

  // ---- from the planner to the end of the run ----

  /** Whatever the planner accepts, the executor may start. */
  lemma NormalizedIsStartable(nodes: seq<PlanNode>)
    requires Normalize(nodes).Success?
    ensures Startable(Normalize(nodes).value) && WellFormed(Normalize(nodes).value)
    ensures forall n :: n in NodeMap(Normalize(nodes).value) ==> NodeMap(Normalize(nodes).value)[n].status == Draft
  {
    hide Normalize;
    var r := Normalize(nodes).value;
    NormalizeIsNormalized(nodes);
    NormalizedTopological(r);
    TopologicalIsRanked(PlanGraph(r), IdList(r));
    RankedIsAcyclic(PlanGraph(r), Ranks(IdList(r)));
    AllDrafts(r);
  }

  lemma AllDrafts(r: seq<PlanNode>)
    requires Normalized(r)
    ensures forall i :: 0 <= i < |r| ==> r[i].status == Draft
    ensures forall n :: n in NodeMap(r) ==> NodeMap(r)[n].status == Draft
    ensures CompletedClosed(NodeMap(r))
  {
    forall n | n in NodeMap(r) ensures NodeMap(r)[n].status == Draft {
      var i :| 0 <= i < |r| && r[i] == NodeMap(r)[n];
    }
  }

  /** A planner that normalizes its answer always returns a sub-DAG that is safe to inject. */
  lemma NormalizedIsSafe(reply: seq<PlanNode>, nodes: seq<PlanNode>, origId: string)
    requires Normalize(reply).Success?
    ensures SafeInjection(nodes, origId, Normalize(reply).value)
  {
    hide Normalize, SafeInjection;
    var r := Normalize(reply).value;
    NormalizeIsNormalized(reply);
    NormalizedTopological(r);
    TopologicalIsRanked(PlanGraph(r), IdList(r));
    RankedIsAcyclic(PlanGraph(r), Ranks(IdList(r)));
    SelfContainedIsSafe(nodes, origId, r);
  }

  /** No step cancels a node. */
  ghost predicate NoneCancelled(m: map<string, PlanNode>) {
    forall n :: n in m ==> m[n].status != Cancelled
  }

  lemma FinishCancelsNone(cfg: Config, s: State, id: string, o: Outcome)
    requires Inv(cfg, s) && Enabled(cfg, s, Finish(id, o)) && Benign(cfg, s, Finish(id, o))
    ensures id in View(Next(cfg, s, Finish(id, o))) && View(Next(cfg, s, Finish(id, o)))[id].status != Cancelled
  {
    hide DistinctIds, CompletedClosed, OthersKept, FinishNodes, DependenciesMet, PendingRunnable;
    if Injects(cfg, s.counts, id, o) {
      FinishInjects(cfg, s, id, o);
      FinishKeepsInv(cfg, s, id, o);
      OwnNodeKept(View(s), View(Next(cfg, s, Finish(id, o))), id);
    } else {
      FinishSettles(cfg, s, id, o);
    }
  }

  lemma OwnNodeKept(m: map<string, PlanNode>, m': map<string, PlanNode>, id: string)
    requires OthersKept(m, m', id) && id in m
    ensures id in m'
  {
  }

  lemma OthersCancelNone(m: map<string, PlanNode>, m': map<string, PlanNode>, id: string)
    requires NoneCancelled(m) && OthersKept(m, m', id) && id in m' && m'[id].status != Cancelled
    ensures NoneCancelled(m')
  {
  }

  lemma StepCancelsNone(cfg: Config, s: State, e: Event)
    requires Inv(cfg, s) && Enabled(cfg, s, e) && Benign(cfg, s, e) && NoneCancelled(View(s))
    ensures NoneCancelled(View(Next(cfg, s, e)))
  {
    hide Inv, Enabled, Benign, View, NoneCancelled, OthersKept, Next;
    StepTouchesOnlyItsNode(cfg, s, e);
    match e
    case Start(id) =>
      StartCancelsNone(cfg, s, id);
      OthersCancelNone(View(s), View(Next(cfg, s, e)), id);
    case Finish(id, o) =>
      FinishCancelsNone(cfg, s, id, o);
      OthersCancelNone(View(s), View(Next(cfg, s, e)), id);
    case _ =>
  }

  lemma StartCancelsNone(cfg: Config, s: State, id: string)
    requires Inv(cfg, s) && Enabled(cfg, s, Start(id))
    ensures id in View(Next(cfg, s, Start(id))) && View(Next(cfg, s, Start(id)))[id].status != Cancelled
  {
    hide DistinctIds, CompletedClosed, OthersKept, DependenciesMet, RunningHeld;
    StartMarksRunning(cfg, s, id);
  }

  lemma {:induction false} RunCancelsNone(cfg: Config, s: State, es: seq<Event>)
    requires Inv(cfg, s) && Runs(cfg, s, es) && NoneCancelled(View(s))
    ensures NoneCancelled(View(Final(cfg, s, es)))
    decreases |es|
  {
    hide Inv, Enabled, Benign, Next, View, NoneCancelled;
    if es != [] {
      StepCancelsNone(cfg, s, es[0]);
      StepKeepsInv(cfg, s, es[0]);
      RunCancelsNone(cfg, Next(cfg, s, es[0]), es[1..]);
    }
  }

  /**
   End to end: a plan the planner builds, run under any interleaving with safe injections, ends
   COMPLETED or FAILED. COMPLETED means every node completed, in a topological order of the final
   graph; FAILED means some node failed or lacks its tool, and every unstarted node is blocked.
   */
  lemma PlannedRunEndsTruthfully(cfg: Config, planId: string, reply: seq<PlanNode>, counts: map<string, nat>,
                              es: seq<Event>)
    requires PlanTaskIntent(planId, reply).Success?
    requires var s0 := InitialState(PlanTaskIntent(planId, reply).value, counts);
             Runs(cfg, s0, es) && AllSafe(cfg, s0, es) && Final(cfg, s0, es).phase == Finished
    ensures var s := Final(cfg, InitialState(PlanTaskIntent(planId, reply).value, counts), es);
            && s.plan.status in {Completed, Failed}
            && Truthful(View(s), s.plan.status) && NoneCancelled(View(s))
            && (s.plan.status == Completed ==> IsTopological(PlanGraph(s.plan.nodes), s.log))
  {
    hide Inv, Startable, PlanTaskIntent, BuildExecutionPlan, Normalize, CompletionOrder, Truthful;
    PlanTaskIntentNormalizesOnce(planId, reply);
    var plan := PlanTaskIntent(planId, reply).value;
    BuiltFromNormalized(planId, reply);
    NormalizedIsStartable(reply);
    var s0 := InitialState(plan, counts);
    InitialInv(cfg, plan, counts);
    FinishedRunIsTruthful(cfg, plan, counts, es);
    RunCancelsNone(cfg, s0, es);
    FreshOrder(View(s0));
    RunKeepsOrder(cfg, s0, es, {});
    var s := Final(cfg, s0, es);
    TruthfulUncancelled(View(s), s.plan.status);
    if s.plan.status == Completed {
      AllCompletedOrder(View(s), s.log, s.plan.status);
    }
  }

  lemma BuiltFromNormalized(planId: string, reply: seq<PlanNode>)
    requires BuildExecutionPlan(planId, reply).Success?
    ensures Normalize(reply).Success? && BuildExecutionPlan(planId, reply).value.nodes == Normalize(reply).value
  {
  }

  lemma FreshOrder(m: map<string, PlanNode>)
    requires forall n :: n in m ==> m[n].status == Draft
    ensures CompletionOrder(m, {}, []) && NoneCancelled(m)
  {
  }

  lemma TruthfulUncancelled(m: map<string, PlanNode>, status: PlanStatus)
    requires Truthful(m, status) && NoneCancelled(m)
    ensures status in {Completed, Failed}
  {
  }

  lemma AllCompletedOrder(m: map<string, PlanNode>, log: seq<string>, status: PlanStatus)
    requires Truthful(m, status) && status == Completed && CompletionOrder(m, {}, log)
    ensures IsTopological(GraphOf(m), log)
  {
    forall i | 0 <= i < |log| ensures GraphOf(m)[log[i]] <= Elems(log[..i]) {
      assert log[i] in Elems(log);
    }
  }
}
