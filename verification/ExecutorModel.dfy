/**
 The executor as a state machine over its atomic steps. A task suspends only at the semaphore
 and while its handler runs, so each load-modify-save section between is one step.
 */
module ExecutorModel {
  import opened Wrappers
  import opened Models
  import opened Injection

  const MAX_INJECTION_ATTEMPTS: nat := 3

  /** Semaphore size, and whether a sub-DAG planner and a tool scaffolder are configured. */
  datatype Config = Config(maxConcurrency: nat, hasPlanner: bool, hasScaffolder: bool)

  datatype PlannerAnswer = PlannerRaises(message: string) | Planned(subs: seq<PlanNode>)

  /** How a dispatched handler ends. `answer` is what the planner replies if it is consulted. */
  datatype Outcome =
    | Returned(result: Option<map<string, string>>)
    | DependencyMissing(answer: PlannerAnswer)
    | UnknownCapability(message: string)
    | HandlerRaised(message: string)

  // ---- pure helpers ----

  predicate IsTerminalStatus(s: PlanStatus) {
    s in {Completed, Failed, Cancelled, NeedsTool}
  }

  predicate DependenciesMet(node: PlanNode, m: map<string, PlanNode>) {
    forall d :: d in node.dependsOn ==> d in m && m[d].status == Completed
  }

  predicate IsRunnable(node: PlanNode, m: map<string, PlanNode>) {
    node.status in {Draft, Ready} && DependenciesMet(node, m)
  }

  function Filter(nodes: seq<PlanNode>, m: map<string, PlanNode>): (r: seq<PlanNode>)
    ensures forall n :: n in r <==> n in nodes && IsRunnable(n, m)
  {
    if nodes == [] then []
    else
      assert forall n :: n in nodes <==> n == nodes[0] || n in nodes[1..];
      (if IsRunnable(nodes[0], m) then [nodes[0]] else []) + Filter(nodes[1..], m)
  }

  /** Nodes not yet started whose dependencies are all completed, in plan order. */
  function CollectRunnable(nodes: seq<PlanNode>): seq<PlanNode> {
    Filter(nodes, NodeMap(nodes))
  }

  function CountInFlight(nodes: seq<PlanNode>): (n: nat)
    ensures n == 0 <==> forall i :: 0 <= i < |nodes| ==> nodes[i].status != Running
  {
    if nodes == [] then 0
    else CountInFlight(nodes[1..]) + (if nodes[0].status == Running then 1 else 0)
  }

  function Statuses(nodes: seq<PlanNode>): set<PlanStatus> {
    set i | 0 <= i < |nodes| :: nodes[i].status
  }

  function DerivePlanStatus(nodes: seq<PlanNode>): PlanStatus {
    var statuses := Statuses(nodes);
    if Failed in statuses then Failed
    else if Cancelled in statuses then Cancelled
    else if NeedsTool in statuses then Failed
    else if forall s :: s in statuses ==> IsTerminalStatus(s) then Completed
    else Running
  }

  // ---- the atomic sections of one task ----

  /** The capability a node asks the registry for. */
  function Capability(node: PlanNode): string {
    if node.assignedClaw != "" then node.assignedClaw else node.id
  }

  function Attempts(counts: map<string, nat>, id: string): nat {
    if id in counts then counts[id] else 0
  }

  /** The node after a failure, a missing tool, or a normal return. */
  function FailedNode(node: PlanNode, e: NodeError): PlanNode {
    node.(status := Failed, error := Some(e))
  }

  function ToollessNode(node: PlanNode, capability: string): PlanNode {
    node.(status := NeedsTool, error := Some(MissingTool(capability)))
  }

  function CompletedNode(node: PlanNode, result: Option<map<string, string>>): PlanNode {
    node.(status := Completed,
          inputs := if result.Some? then node.inputs + result.value else node.inputs,
          error := None)
  }

  /** True when this outcome makes the planner inject its answer. */
  predicate Injects(cfg: Config, counts: map<string, nat>, id: string, o: Outcome) {
    o.DependencyMissing? && o.answer.Planned? && cfg.hasPlanner && Attempts(counts, id) < MAX_INJECTION_ATTEMPTS
  }

  /** The node itself after an outcome that injects nothing. */
  function SettledNode(cfg: Config, counts: map<string, nat>, node: PlanNode, o: Outcome): (r: PlanNode)
    requires !Injects(cfg, counts, node.id, o)
    ensures r.id == node.id && r.dependsOn == node.dependsOn && r.assignedClaw == node.assignedClaw
    ensures r.status in {Completed, Failed, NeedsTool}
    ensures r.status == Completed <==> o.Returned?
  {
    match o
    case Returned(result) => CompletedNode(node, result)
    case HandlerRaised(e) => FailedNode(node, HandlerError(e))
    case UnknownCapability(e) =>
      if cfg.hasScaffolder then ToollessNode(node, Capability(node))
      else FailedNode(node, UnknownCapabilityError(e))
    case DependencyMissing(answer) =>
      if !cfg.hasPlanner then FailedNode(node, NoSubdagPlanner)
      else if Attempts(counts, node.id) >= MAX_INJECTION_ATTEMPTS then FailedNode(node, InjectionLoopGuard)
      else FailedNode(node, SubdagPlannerError(answer.message))
  }

  /** The plan's nodes after the section that follows the handler of `id`. */
  function FinishNodes(cfg: Config, nodes: seq<PlanNode>, counts: map<string, nat>, id: string,
                       o: Outcome): seq<PlanNode> {
    if Injects(cfg, counts, id, o) then Inject(nodes, id, o.answer.subs)
    else
      var i := FindIndex(nodes, id);
      if i.None? then nodes else SetNode(nodes, SettledNode(cfg, counts, nodes[i.value], o))
  }

  /** The injection counters afterwards; the counter goes up before the planner is called. */
  function FinishCounts(cfg: Config, counts: map<string, nat>, id: string, o: Outcome): map<string, nat> {
    if o.DependencyMissing? && cfg.hasPlanner && Attempts(counts, id) < MAX_INJECTION_ATTEMPTS
    then counts[id := Attempts(counts, id) + 1]
    else counts
  }

  /** The section that starts a task: skipped when the node is gone or already settled. */
  predicate CanStart(nodes: seq<PlanNode>, id: string) {
    var i := FindIndex(nodes, id);
    i.Some? && !IsTerminalStatus(nodes[i.value].status)
  }

  function StartNodes(nodes: seq<PlanNode>, id: string): seq<PlanNode> {
    var i := FindIndex(nodes, id);
    if CanStart(nodes, id) then SetNode(nodes, nodes[i.value].(status := Running)) else nodes
  }

  // ---- the state machine ----

  /** The ids of a group of tasks. */
  function Members(tasks: multiset<string>): set<string> {
    set id | id in tasks
  }

  datatype Phase = AtHead | InBatch | Finished

  /**
   `pending` are the batch's tasks still waiting for the semaphore, `running` those holding it, each
   named by its node's id; where ids repeat, several tasks have one name.
   `log` (completions, in order) and `depth` (injection nesting) are histories no step reads.
   */
  datatype State = State(
    plan: ExecutionPlan,
    counts: map<string, nat>,
    phase: Phase,
    pending: multiset<string>,
    running: multiset<string>,
    log: seq<string>,
    depth: map<string, nat>)

  datatype Event =
    | Dispatch
    | Start(id: string)
    | Finish(id: string, outcome: Outcome)
    | Join
    | Wait
    | Stop

  function InitialState(plan: ExecutionPlan, counts: map<string, nat>): State {
    State(plan.(status := Running), counts, AtHead, multiset{}, multiset{}, [], map id | id in Ids(plan.nodes) :: 0)
  }

  predicate Enabled(cfg: Config, s: State, e: Event) {
    var nodes := s.plan.nodes;
    match e
    case Dispatch => s.phase == AtHead && !IsTerminalStatus(s.plan.status) && CollectRunnable(nodes) != []
    case Wait =>
      s.phase == AtHead && !IsTerminalStatus(s.plan.status) && CollectRunnable(nodes) == [] && CountInFlight(nodes) > 0
    case Stop =>
      && s.phase == AtHead
      && (IsTerminalStatus(s.plan.status) || (CollectRunnable(nodes) == [] && CountInFlight(nodes) == 0))
    case Start(id) => s.phase == InBatch && id in s.pending && |s.running| < cfg.maxConcurrency
    case Finish(id, o) => s.phase == InBatch && id in s.running
    case Join => s.phase == InBatch && s.pending == multiset{} && s.running == multiset{}
  }

  function Next(cfg: Config, s: State, e: Event): State {
    var nodes := s.plan.nodes;
    match e
    case Dispatch => s.(phase := InBatch, pending := multiset(IdList(CollectRunnable(nodes))))
    case Wait => s
    case Stop => s.(phase := Finished, plan := s.plan.(status := DerivePlanStatus(nodes)))
    case Start(id) =>
      s.(plan := s.plan.(nodes := StartNodes(nodes, id)),
         pending := s.pending - multiset{id},
         running := if CanStart(nodes, id) then s.running + multiset{id} else s.running)
    case Finish(id, o) =>
      s.(plan := s.plan.(nodes := FinishNodes(cfg, nodes, s.counts, id, o)),
         counts := FinishCounts(cfg, s.counts, id, o),
         running := s.running - multiset{id},
         log := if o.Returned? then s.log + [id] else s.log,
         depth := NextDepth(cfg, s, id, o))
    case Join => s.(phase := AtHead)
  }

  /** Injected nodes nest one deeper than the node they were injected for. */
  function NextDepth(cfg: Config, s: State, id: string, o: Outcome): map<string, nat> {
    if Injects(cfg, s.counts, id, o) then
      var d := if id in s.depth then s.depth[id] else 0;
      s.depth + (map x | x in Ids(Remapped(Ids(s.plan.nodes), id, o.answer.subs)) :: d + 1)
    else s.depth
  }

  lemma FinishedFields(cfg: Config, s: State, id: string, o: Outcome)
    ensures var s' := Next(cfg, s, Finish(id, o));
            && s'.plan.nodes == FinishNodes(cfg, s.plan.nodes, s.counts, id, o)
            && s'.running == s.running - multiset{id} && s'.pending == s.pending
            && s'.phase == s.phase && s'.plan.status == s.plan.status
            && s'.counts == FinishCounts(cfg, s.counts, id, o) && s'.depth == NextDepth(cfg, s, id, o)
  {
    hide FinishNodes, FinishCounts, NextDepth;
  }
}
