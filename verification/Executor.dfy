/**
 The executor object: a store of plans, a semaphore, and the per-node injection counters. Its
 methods are the atomic sections of a task and the run loop; the run loop follows the state
 machine of module ExecutorModel step by step, whatever order the scheduler picks.
 */
module Executor {
  import opened Wrappers
  import opened Models
  import opened Injection
  import opened SubdagInjector
  import opened ExecutorModel
  import opened ExecutorSafety
  import opened ExecutorRuns
  import opened ExecutorLiveness
  import opened ExecutorTermination

  /** What handlers and planner answer: at a given step, for a capability and its inputs. */
  type Environment = (nat, string, map<string, string>) -> Outcome

  /** The answer is that of the node's assigned claw, or of the capability its id names if it has none. */
  ghost predicate Answered(env: Environment, k: nat, node: PlanNode, o: Outcome) {
    && (node.assignedClaw != "" ==> o == env(k, node.assignedClaw, node.inputs))
    && (node.assignedClaw == "" ==> o == env(k, node.id, node.inputs))
  }

  /** Every handler of the run answered as the environment says. */
  ghost predicate Follows(cfg: Config, env: Environment, s0: State, es: seq<Event>) {
    forall k :: 0 <= k < |es| && es[k].Finish? ==> FollowsAt(cfg, env, s0, es, k)
  }

  ghost predicate FollowsAt(cfg: Config, env: Environment, s0: State, es: seq<Event>, k: nat)
    requires k < |es| && es[k].Finish?
  {
    var m := View(Final(cfg, s0, es[..k]));
    es[k].id in m && Answered(env, k, m[es[k].id], es[k].outcome)
  }

  lemma FollowsAppend(cfg: Config, env: Environment, s0: State, es: seq<Event>, e: Event)
    requires Follows(cfg, env, s0, es)
    requires e.Finish? ==>
      var m := View(Final(cfg, s0, es));
      e.id in m && Answered(env, |es|, m[e.id], e.outcome)
    ensures Follows(cfg, env, s0, es + [e])
  {
    hide Final, View;
    forall k | 0 <= k < |es + [e]| && (es + [e])[k].Finish?
      ensures FollowsAt(cfg, env, s0, es + [e], k)
    {
      assert (es + [e])[..k] == es[..k];
      if k < |es| {
        assert FollowsAt(cfg, env, s0, es, k);
      } else {
        assert es[..k] == es;
      }
    }
  }

  /** Along every run, the planner's answers have distinct ids, nest less than D deep, and hold at most B nodes each. */
  ghost predicate Manageable(cfg: Config, env: Environment, D: nat, B: nat, s0: State) {
    forall es, n, o :: Runs(cfg, s0, es) && Follows(cfg, env, s0, es) && n in Final(cfg, s0, es).running ==>
      ManageableAt(cfg, env, D, B, Final(cfg, s0, es), |es|, n, o)
  }

  ghost predicate ManageableAt(cfg: Config, env: Environment, D: nat, B: nat, s: State, k: nat, n: string, o: Outcome) {
    n in View(s) && Answered(env, k, View(s)[n], o) ==>
      Benign(cfg, s, Finish(n, o)) && Shallow(D, B, cfg, s, Finish(n, o))
  }

  /** `trace` is a run from `s0` to `s` with the environment's answers. */
  ghost predicate Following(cfg: Config, env: Environment, D: nat, B: nat, s0: State, trace: seq<Event>, s: State) {
    && Runs(cfg, s0, trace) && Final(cfg, s0, trace) == s
    && Follows(cfg, env, s0, trace) && Manageable(cfg, env, D, B, s0)
    && Inv(cfg, s)
  }

  /** One more enabled step with the environment's answer keeps following, and lowers the measure. */
  lemma Advance(cfg: Config, env: Environment, D: nat, B: nat, s0: State, trace: seq<Event>, s: State, e: Event)
    requires Following(cfg, env, D, B, s0, trace, s) && Enabled(cfg, s, e)
    requires e.Finish? ==> e.id in View(s) && Answered(env, |trace|, View(s)[e.id], e.outcome)
    ensures Following(cfg, env, D, B, s0, trace + [e], Next(cfg, s, e))
    ensures Measure(D, B, Next(cfg, s, e)) < Measure(D, B, s)
  {
    hide Inv, View, Final, Runs, Follows, Measure, Next, Injects, Potential;
    BenignAndShallow(cfg, env, D, B, s0, trace, s, e);
    StepKeepsInv(cfg, s, e);
    StepLowersMeasure(D, B, cfg, s, e);
    RunsAppend(cfg, s0, trace, e);
    FollowsAppend(cfg, env, s0, trace, e);
  }

  lemma BenignAndShallow(cfg: Config, env: Environment, D: nat, B: nat, s0: State, trace: seq<Event>, s: State,
                         e: Event)
    requires Following(cfg, env, D, B, s0, trace, s) && Enabled(cfg, s, e)
    requires e.Finish? ==> e.id in View(s) && Answered(env, |trace|, View(s)[e.id], e.outcome)
    ensures Benign(cfg, s, e) && Shallow(D, B, cfg, s, e)
  {
    hide Inv, View, Final, Runs, Follows;
    if e.Finish? {
      assert e.id in Final(cfg, s0, trace).running;
      assert ManageableAt(cfg, env, D, B, Final(cfg, s0, trace), |trace|, e.id, e.outcome);
    }
  }

  lemma MeasureOfFollowing(cfg: Config, env: Environment, D: nat, B: nat, s0: State, trace: seq<Event>, s: State)
    requires Following(cfg, env, D, B, s0, trace, s)
    ensures Measure(D, B, s) >= 0
  {
    MeasureNonNegative(D, B, cfg, s);
  }

  lemma StartingIsNew(cfg: Config, env: Environment, D: nat, B: nat, s0: State, trace: seq<Event>, s: State, n: string)
    requires Following(cfg, env, D, B, s0, trace, s) && n in s.pending
    ensures n !in s.running && CanStart(s.plan.nodes, n)
  {
    hide DistinctIds, CompletedClosed, DependenciesMet, NodeMap, CanStart, Runs, Final, Follows, Manageable,
         OthersKept;
    StartMarksRunning(cfg, s, n);
  }

  lemma RunningListed(cfg: Config, env: Environment, D: nat, B: nat, s0: State, trace: seq<Event>, s: State, n: string)
    requires Following(cfg, env, D, B, s0, trace, s) && n in s.running
    ensures n in View(s) && n in Ids(s.plan.nodes)
  {
  }

  lemma HeadState(cfg: Config, env: Environment, D: nat, B: nat, s0: State, trace: seq<Event>, s: State)
    requires Following(cfg, env, D, B, s0, trace, s) && s.phase == AtHead
    ensures s.plan.status == Running && CountInFlight(s.plan.nodes) == 0
    ensures s.pending == multiset{} && s.running == multiset{}
  {
    hide DistinctIds, CompletedClosed, RunningHeld, PendingRunnable, Runs, Final, Follows, Manageable;
    InFlightBounded(cfg, s);
  }

  lemma BeginFollowing(cfg: Config, env: Environment, D: nat, B: nat, plan: ExecutionPlan, counts: map<string, nat>)
    requires Startable(plan.nodes) && Manageable(cfg, env, D, B, InitialState(plan, counts))
    ensures Following(cfg, env, D, B, InitialState(plan, counts), [], InitialState(plan, counts))
  {
    hide Inv, Startable, Manageable;
    InitialInv(cfg, plan, counts);
  }

  lemma EndFollowing(cfg: Config, env: Environment, D: nat, B: nat, trace: seq<Event>, s: State,
                     plan: ExecutionPlan, counts: map<string, nat>)
    requires Startable(plan.nodes) && s.phase == Finished
    requires Following(cfg, env, D, B, InitialState(plan, counts), trace, s)
    ensures Runs(cfg, InitialState(plan, counts), trace) && Final(cfg, InitialState(plan, counts), trace) == s
    ensures Follows(cfg, env, InitialState(plan, counts), trace)
    ensures ExactVerdict(NodeMap(s.plan.nodes), s.plan.status)
    ensures WellFormed(plan.nodes) && AllSafe(cfg, InitialState(plan, counts), trace) ==>
      Truthful(NodeMap(s.plan.nodes), s.plan.status)
  {
    hide Startable, WellFormed, AllSafe, Inv, Manageable, Follows, Truthful, ExactVerdict;
    FinishedRunningIff(cfg, plan, counts, trace);
    if WellFormed(plan.nodes) && AllSafe(cfg, InitialState(plan, counts), trace) {
      FinishedRunIsTruthful(cfg, plan, counts, trace);
    }
  }

  class Executor {
    const cfg: Config
    var store: map<string, ExecutionPlan>
    var injectionCounts: map<string, nat>
    var permits: nat

    constructor (cfg: Config, store: map<string, ExecutionPlan>)
      ensures this.cfg == cfg && this.store == store
      ensures injectionCounts == map[] && permits == cfg.maxConcurrency
    {
      this.cfg := cfg;
      this.store := store;
      injectionCounts := map[];
      permits := cfg.maxConcurrency;
    }

    /** Persists a new form of one node of a plan; nothing happens when plan or node is gone. */
    method UpdateNode(planId: string, nodeId: string, change: PlanNode -> PlanNode)
      requires forall node :: change(node).id == node.id
      modifies this`store
      ensures store == if planId in old(store) && nodeId in Ids(old(store)[planId].nodes)
                       then var nodes := old(store)[planId].nodes;
                            var node := change(NodeMap(nodes)[nodeId]);
                            old(store)[planId := old(store)[planId].(nodes := SetNode(nodes, node))]
                       else old(store)
    {
      if planId in store {
        var plan := store[planId];
        var i := FindIndex(plan.nodes, nodeId);
        if i.Some? {
          store := store[planId := plan.(nodes := SetNode(plan.nodes, change(plan.nodes[i.value])))];
        }
      }
    }

    method RecordFailure(planId: string, nodeId: string, e: NodeError)
      modifies this`store
      ensures store == if planId in old(store) && nodeId in Ids(old(store)[planId].nodes)
                       then var nodes := old(store)[planId].nodes;
                            var node := NodeMap(nodes)[nodeId].(status := Failed, error := Some(e));
                            old(store)[planId := old(store)[planId].(nodes := SetNode(nodes, node))]
                       else old(store)
    {
      UpdateNode(planId, nodeId, node => FailedNode(node, e));
    }

    method HandleMissingCapability(planId: string, nodeId: string, capability: string)
      modifies this`store
      ensures store == if planId in old(store) && nodeId in Ids(old(store)[planId].nodes)
                       then var nodes := old(store)[planId].nodes;
                            var missing := Some(MissingTool(capability));
                            var node := NodeMap(nodes)[nodeId].(status := NeedsTool, error := missing);
                            old(store)[planId := old(store)[planId].(nodes := SetNode(nodes, node))]
                       else old(store)
    {
      UpdateNode(planId, nodeId, node => ToollessNode(node, capability));
    }

    /** The section before the handler: takes a permit and marks the node running, or gives up at once. */
    method BeginNode(planId: string, nodeId: string) returns (started: bool)
      requires planId in store && permits > 0
      modifies this`store, this`permits
      ensures started == CanStart(old(store)[planId].nodes, nodeId)
      ensures store == old(store)[planId := old(store)[planId].(nodes := StartNodes(old(store)[planId].nodes, nodeId))]
      ensures permits == old(permits) - (if started then 1 else 0)
    {
      var plan := store[planId];
      var i := FindIndex(plan.nodes, nodeId);
      if i.None? || IsTerminalStatus(plan.nodes[i.value].status) {
        assert plan.(nodes := StartNodes(plan.nodes, nodeId)) == plan;
        return false;
      }
      permits := permits - 1;
      store := store[planId := plan.(nodes := SetNode(plan.nodes, plan.nodes[i.value].(status := Running)))];
      started := true;
    }

    /** The branch for a handler that reports missing prerequisites. */
    method ResolveMissing(planId: string, nodeId: string, answer: PlannerAnswer)
      requires planId in store && nodeId in Ids(store[planId].nodes)
      modifies this`store, this`injectionCounts
      ensures var o := DependencyMissing(answer);
              store == old(store)[planId := old(store)[planId].(nodes :=
                FinishNodes(cfg, old(store)[planId].nodes, old(injectionCounts), nodeId, o))]
      ensures injectionCounts == FinishCounts(cfg, old(injectionCounts), nodeId, DependencyMissing(answer))
    {
      hide Inject, SetNode, FindIndex, NodeMap, Ids;
      if !cfg.hasPlanner {
        RecordFailure(planId, nodeId, NoSubdagPlanner);
        return;
      }
      var count := Attempts(injectionCounts, nodeId);
      if count >= MAX_INJECTION_ATTEMPTS {
        RecordFailure(planId, nodeId, InjectionLoopGuard);
        return;
      }
      injectionCounts := injectionCounts[nodeId := count + 1];
      match answer
      case PlannerRaises(message) => RecordFailure(planId, nodeId, SubdagPlannerError(message));
      case Planned(subs) =>
        var plan := InjectSubdag(store[planId], nodeId, subs);
        store := store[planId := plan];
    }

    /** The section after the handler: settles the node or injects a sub-DAG, then returns the permit. */
    method CompleteNode(planId: string, nodeId: string, capability: string, o: Outcome)
      requires planId in store && nodeId in Ids(store[planId].nodes)
      requires var node := NodeMap(store[planId].nodes)[nodeId];
               capability == if node.assignedClaw != "" then node.assignedClaw else node.id
      modifies this`store, this`injectionCounts, this`permits
      ensures store == old(store)[planId := old(store)[planId].(nodes :=
                FinishNodes(cfg, old(store)[planId].nodes, old(injectionCounts), nodeId, o))]
      ensures injectionCounts == FinishCounts(cfg, old(injectionCounts), nodeId, o)
      ensures permits == old(permits) + 1
    {
      hide Inject, SetNode, FindIndex;
      match o {
        case DependencyMissing(answer) => ResolveMissing(planId, nodeId, answer);
        case Returned(result) => UpdateNode(planId, nodeId, node => CompletedNode(node, result));
        case UnknownCapability(message) =>
          if cfg.hasScaffolder {
            HandleMissingCapability(planId, nodeId, capability);
          } else {
            RecordFailure(planId, nodeId, UnknownCapabilityError(message));
          }
        case HandlerRaised(message) => RecordFailure(planId, nodeId, HandlerError(message));
      }
      permits := permits + 1;
    }

    /** Store, counters and semaphore are those of the state machine's state. */
    ghost predicate Mirrors(planId: string, store0: map<string, ExecutionPlan>, s: State)
      reads this
    {
      && store == store0[planId := s.plan]
      && injectionCounts == s.counts
      && permits + |s.running| == cfg.maxConcurrency
    }

    /** Starts one pending task, as the machine's Start step does. */
    method StartOne(planId: string, n: string, env: Environment, ghost D: nat, ghost B: nat,
                    ghost store0: map<string, ExecutionPlan>, ghost s0: State, ghost trace: seq<Event>, ghost s: State)
      returns (started: bool)
      requires Following(cfg, env, D, B, s0, trace, s) && Mirrors(planId, store0, s)
      requires Enabled(cfg, s, Start(n)) && permits > 0
      modifies this`store, this`permits
      ensures Following(cfg, env, D, B, s0, trace + [Start(n)], Next(cfg, s, Start(n)))
      ensures Mirrors(planId, store0, Next(cfg, s, Start(n)))
      ensures Measure(D, B, Next(cfg, s, Start(n))) < Measure(D, B, s)
      ensures Next(cfg, s, Start(n)).running == if started then s.running + multiset{n} else s.running
    {
      hide Following, Measure, StartNodes, CanStart;
      Advance(cfg, env, D, B, s0, trace, s, Start(n));
      StartingIsNew(cfg, env, D, B, s0, trace, s, n);
      started := BeginNode(planId, n);
    }

    /** Finishes one running task with the environment's answer, as the machine's Finish step does. */
    method FinishOne(planId: string, n: string, env: Environment, step: nat, ghost D: nat, ghost B: nat,
                     ghost store0: map<string, ExecutionPlan>, ghost s0: State, ghost trace: seq<Event>, ghost s: State)
      returns (o: Outcome)
      requires Following(cfg, env, D, B, s0, trace, s) && Mirrors(planId, store0, s)
      requires s.phase == InBatch && n in s.running && step == |trace|
      modifies this
      ensures Following(cfg, env, D, B, s0, trace + [Finish(n, o)], Next(cfg, s, Finish(n, o)))
      ensures Mirrors(planId, store0, Next(cfg, s, Finish(n, o)))
      ensures Measure(D, B, Next(cfg, s, Finish(n, o))) < Measure(D, B, s)
    {
      hide Following, Measure, FinishNodes, FinishCounts, NextDepth, NodeMap;
      RunningListed(cfg, env, D, B, s0, trace, s, n);
      var node := NodeMap(store[planId].nodes)[n];
      var capability := Capability(node);
      o := env(step, capability, node.inputs);
      Advance(cfg, env, D, B, s0, trace, s, Finish(n, o));
      CompleteNode(planId, n, capability, o);
      assert |s.running - multiset{n}| == |s.running| - 1;
    }

    /** Starts or finishes tasks of one batch in any order until none is left. */
    method RunBatch(planId: string, batch: multiset<string>, env: Environment, step0: nat, ghost D: nat, ghost B: nat,
                    ghost store0: map<string, ExecutionPlan>, ghost s0: State, ghost trace0: seq<Event>,
                    ghost t0: State)
      returns (step: nat, ghost trace: seq<Event>, ghost s: State)
      requires Following(cfg, env, D, B, s0, trace0, t0) && step0 == |trace0| && cfg.maxConcurrency > 0
      requires t0.phase == InBatch && t0.pending == batch && t0.running == multiset{} && Mirrors(planId, store0, t0)
      modifies this
      ensures Following(cfg, env, D, B, s0, trace, s) && step == |trace|
      ensures s.phase == AtHead && Mirrors(planId, store0, s)
      ensures Measure(D, B, s) < Measure(D, B, t0)
    {
      hide Following, Measure, StartNodes, CanStart, FinishNodes, FinishCounts, NextDepth, CollectRunnable;
      step, trace, s := step0, trace0, t0;
      var pending, running := batch, multiset{};
      while pending != multiset{} || running != multiset{}
        invariant Following(cfg, env, D, B, s0, trace, s) && step == |trace|
        invariant s.phase == InBatch && s.pending == pending && s.running == running
        invariant Mirrors(planId, store0, s)
        invariant Measure(D, B, s) <= Measure(D, B, t0)
        decreases Measure(D, B, s)
      {
        MeasureOfFollowing(cfg, env, D, B, s0, trace, s);
        if
        case pending != multiset{} && permits > 0 =>
          var n :| n in pending;
          var started := StartOne(planId, n, env, D, B, store0, s0, trace, s);
          pending := pending - multiset{n};
          running := if started then running + multiset{n} else running;
          trace, s := trace + [Start(n)], Next(cfg, s, Start(n));
          step := step + 1;
        case running != multiset{} =>
          var n :| n in running;
          var o := FinishOne(planId, n, env, step, D, B, store0, s0, trace, s);
          running := running - multiset{n};
          trace, s := trace + [Finish(n, o)], Next(cfg, s, Finish(n, o));
          step := step + 1;
      }
      Advance(cfg, env, D, B, s0, trace, s, Join);
      trace, s := trace + [Join], Next(cfg, s, Join);
      step := step + 1;
    }

    /** Runs a stored plan until nothing runs and nothing can run, then records the verdict. */
    method Run(planId: string, env: Environment, ghost D: nat, ghost B: nat)
      returns (r: Option<ExecutionPlan>, ghost trace: seq<Event>)
      requires permits == cfg.maxConcurrency
      requires planId in store && CollectRunnable(store[planId].nodes) != [] ==> cfg.maxConcurrency > 0
      requires planId in store ==>
        && Startable(store[planId].nodes)
        && Manageable(cfg, env, D, B, InitialState(store[planId], injectionCounts))
      modifies this
      ensures planId !in old(store) ==> r == None && store == old(store)
      ensures planId in old(store) ==>
        var s0 := InitialState(old(store)[planId], old(injectionCounts));
        var s := Final(cfg, s0, trace);
        && Runs(cfg, s0, trace) && Follows(cfg, env, s0, trace) && s.phase == Finished
        && r == Some(s.plan) && store == old(store)[planId := s.plan] && injectionCounts == s.counts
        && ExactVerdict(NodeMap(s.plan.nodes), s.plan.status)
        && (WellFormed(old(store)[planId].nodes) && AllSafe(cfg, s0, trace) ==>
          Truthful(NodeMap(s.plan.nodes), s.plan.status))
      ensures permits == old(permits)
    {
      hide Startable, Manageable, Measure, Truthful, ExactVerdict, WellFormed, AllSafe, CollectRunnable,
           CountInFlight, DerivePlanStatus, Following;
      trace := [];
      if planId !in store {
        return None, [];
      }
      ghost var s0 := InitialState(store[planId], injectionCounts);
      ghost var store0, counts0 := store, injectionCounts;
      ghost var s := s0;
      var step := 0;
      BeginFollowing(cfg, env, D, B, store[planId], injectionCounts);
      store := store[planId := store[planId].(status := Running)];
      while true
        invariant Following(cfg, env, D, B, s0, trace, s) && step == |trace|
        invariant cfg.maxConcurrency > 0 || CollectRunnable(s.plan.nodes) == []
        invariant s.phase == AtHead && s.running == multiset{} && Mirrors(planId, store0, s)
        decreases Measure(D, B, s)
      {
        MeasureOfFollowing(cfg, env, D, B, s0, trace, s);
        HeadState(cfg, env, D, B, s0, trace, s);
        var plan := store[planId];
        if IsTerminalStatus(plan.status) {
          break;
        }
        var runnable := CollectRunnable(plan.nodes);
        var inFlight := CountInFlight(plan.nodes);
        if runnable == [] && inFlight == 0 {
          break;
        }
        // With nothing in flight here, the branch that sleeps and looks again is never taken.
        Advance(cfg, env, D, B, s0, trace, s, Dispatch);
        trace, s := trace + [Dispatch], Next(cfg, s, Dispatch);
        step, trace, s := RunBatch(planId, multiset(IdList(runnable)), env, step + 1, D, B, store0, s0, trace, s);
        HeadState(cfg, env, D, B, s0, trace, s);
      }
      Advance(cfg, env, D, B, s0, trace, s, Stop);
      trace, s := trace + [Stop], Next(cfg, s, Stop);
      var plan := store[planId];
      var finalStatus := DerivePlanStatus(plan.nodes);
      if plan.status != finalStatus {
        plan := plan.(status := finalStatus);
        store := store[planId := plan];
      }
      EndFollowing(cfg, env, D, B, trace, s, store0[planId], counts0);
      r := Some(plan);
    }
  }
}
