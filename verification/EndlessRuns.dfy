/**
 When a run can go on for ever, with bounded nesting and any answers: exactly when it comes to a batch
 that dispatches a shadowed node. Otherwise a measure drops with every step.
 */
module EndlessRuns {
  import opened Sums
  import opened Models
  import opened Injection
  import opened InjectionTheorems
  import opened ExecutorModel
  import opened ExecutorSafety
  import opened ExecutorRuns
  import opened ExecutorTermination
  import opened RepeatedIds

  // ---- what every step keeps, ids repeated or not ----

  /** Running nodes are those lookup finds for the ids of running tasks. */
  ghost predicate RunningFound(nodes: seq<PlanNode>, running: multiset<string>) {
    forall i :: 0 <= i < |nodes| && nodes[i].status == Running ==> nodes[i].id in running && IsLast(nodes, i)
  }

  ghost predicate Weak(s: State) {
    && RunningFound(s.plan.nodes, s.running)
    && (forall n :: n in s.pending || n in s.running ==> n in Ids(s.plan.nodes))
    && (s.phase != InBatch ==> s.pending == multiset{} && s.running == multiset{})
    && (s.phase != Finished ==> s.plan.status == Running)
  }

  lemma InitialWeak(plan: ExecutionPlan, counts: map<string, nat>)
    requires forall i :: 0 <= i < |plan.nodes| ==> plan.nodes[i].status != Running
    ensures Weak(InitialState(plan, counts))
  {
  }

  /** The node of `id` that lookup finds is replaced, others stay, and fresh nodes that do not run are appended. */
  ghost predicate Replaces(nodes: seq<PlanNode>, nodes': seq<PlanNode>, k: nat) {
    && k < |nodes| <= |nodes'|
    && (forall i :: 0 <= i < |nodes| ==> nodes'[i].id == nodes[i].id && (i != k ==> nodes'[i] == nodes[i]))
    && (forall i :: |nodes| <= i < |nodes'| ==> nodes'[i].status != Running && nodes'[i].id !in Ids(nodes))
  }

  lemma ReplacesKeepsFound(nodes: seq<PlanNode>, nodes': seq<PlanNode>, k: nat, running: multiset<string>,
                           running': multiset<string>)
    requires Replaces(nodes, nodes', k) && RunningFound(nodes, running) && IsLast(nodes, k)
    requires nodes'[k].status == Running ==> nodes[k].id in running'
    requires forall n :: n in running && n != nodes[k].id ==> n in running'
    ensures RunningFound(nodes', running')
  {
    forall i | 0 <= i < |nodes'| && nodes'[i].status == Running ensures nodes'[i].id in running' && IsLast(nodes', i) {
      assert i < |nodes|;
      assert nodes[i].id in Ids(nodes);
      assert i != k ==> nodes[i].status == Running;
    }
  }

  lemma StartReplaces(nodes: seq<PlanNode>, id: string)
    requires CanStart(nodes, id)
    ensures Replaces(nodes, StartNodes(nodes, id), FindIndex(nodes, id).value)
    ensures IsLast(nodes, FindIndex(nodes, id).value) && nodes[FindIndex(nodes, id).value].id == id
  {
    FoundIsLast(nodes, id);
    hide Ids, NodeMap, FindIndex;
  }

  lemma AppendReplaces(nodes: seq<PlanNode>, k: nat, node: PlanNode, extra: seq<PlanNode>)
    requires k < |nodes| && node.id == nodes[k].id
    requires forall j :: 0 <= j < |extra| ==> extra[j].status != Running && extra[j].id !in Ids(nodes)
    ensures Replaces(nodes, nodes[k := node] + extra, k)
    ensures IdList(nodes[k := node] + extra) == IdList(nodes) + IdList(extra)
  {
    hide Ids;
  }

  lemma InjectedAreNew(nodes: seq<PlanNode>, id: string, subs: seq<PlanNode>)
    ensures var injected := Remapped(Ids(nodes), id, subs);
            forall j :: 0 <= j < |injected| ==> injected[j].status == Draft && injected[j].id !in Ids(nodes)
  {
    var injected := Remapped(Ids(nodes), id, subs);
    RemappedIds(Ids(nodes), id, subs);
    forall j | 0 <= j < |injected| ensures injected[j].status == Draft && injected[j].id !in Ids(nodes) {
      PlaceInIds(injected, j);
    }
  }

  lemma InjectReplaces(nodes: seq<PlanNode>, id: string, subs: seq<PlanNode>)
    requires id in Ids(nodes)
    ensures var k := FindIndex(nodes, id).value;
            Replaces(nodes, Inject(nodes, id, subs), k) && Inject(nodes, id, subs)[k].status == Draft
    ensures IdList(Inject(nodes, id, subs)) == IdList(nodes) + IdList(Remapped(Ids(nodes), id, subs))
  {
    var i := FindIndex(nodes, id).value;
    var node' := InjectShape(nodes, id, subs, i);
    InjectedAreNew(nodes, id, subs);
    hide Inject, FindIndex, NodeMap, Ids, Remapped, Replaces;
    AppendReplaces(nodes, i, node', Remapped(Ids(nodes), id, subs));
  }

  lemma SettleReplaces(cfg: Config, nodes: seq<PlanNode>, counts: map<string, nat>, id: string, o: Outcome)
    requires id in Ids(nodes) && !Injects(cfg, counts, id, o)
    ensures var k, nodes' := FindIndex(nodes, id).value, FinishNodes(cfg, nodes, counts, id, o);
            && Replaces(nodes, nodes', k) && IsTerminalStatus(nodes'[k].status)
            && IdList(nodes') == IdList(nodes)
  {
    hide Ids, NodeMap, FindIndex, SettledNode;
  }

  lemma FinishReplaces(cfg: Config, nodes: seq<PlanNode>, counts: map<string, nat>, id: string, o: Outcome)
    requires id in Ids(nodes)
    ensures var k, nodes' := FindIndex(nodes, id).value, FinishNodes(cfg, nodes, counts, id, o);
            Replaces(nodes, nodes', k) && IsLast(nodes, k) && nodes[k].id == id && nodes'[k].status != Running
  {
    FoundIsLast(nodes, id);
    hide Inject, FindIndex, NodeMap, Ids, Replaces, IsLast, SettledNode;
    if Injects(cfg, counts, id, o) {
      InjectReplaces(nodes, id, o.answer.subs);
    } else {
      SettleReplaces(cfg, nodes, counts, id, o);
    }
  }

  lemma BatchListed(nodes: seq<PlanNode>)
    ensures forall n :: n in multiset(IdList(CollectRunnable(nodes))) ==> n in Ids(nodes)
  {
    hide IsRunnable, NodeMap;
    var r := CollectRunnable(nodes);
    forall i | 0 <= i < |r| ensures r[i].id in Ids(nodes) {
      assert r[i] in nodes;
    }
  }

  lemma ReplacesListed(nodes: seq<PlanNode>, nodes': seq<PlanNode>, k: nat)
    requires Replaces(nodes, nodes', k)
    ensures Ids(nodes) <= Ids(nodes')
  {
    forall n | n in Ids(nodes) ensures n in Ids(nodes') {
      var i :| 0 <= i < |nodes| && nodes[i].id == n;
      assert nodes'[i].id == n;
    }
  }

  lemma NothingInFlight(nodes: seq<PlanNode>)
    requires RunningFound(nodes, multiset{})
    ensures CountInFlight(nodes) == 0
  {
  }

  lemma StartKeepsWeak(cfg: Config, s: State, id: string)
    requires Weak(s) && Enabled(cfg, s, Start(id))
    ensures Weak(Next(cfg, s, Start(id)))
  {
    var nodes := s.plan.nodes;
    var nodes' := StartNodes(nodes, id);
    hide RunningFound, StartNodes, CanStart, Ids, FindIndex, Replaces, IsLast;
    if CanStart(nodes, id) {
      var k := FindIndex(nodes, id).value;
      StartReplaces(nodes, id);
      ReplacesListed(nodes, nodes', k);
      ReplacesKeepsFound(nodes, nodes', k, s.running, s.running + multiset{id});
    } else {
      NotStarted(nodes, id);
    }
  }

  lemma ReplacedWeak(s: State, s': State, id: string, k: nat)
    requires Weak(s) && s.phase == InBatch && s'.phase == InBatch && s'.plan.status == s.plan.status
    requires Replaces(s.plan.nodes, s'.plan.nodes, k) && IsLast(s.plan.nodes, k)
    requires s.plan.nodes[k].id == id && s'.plan.nodes[k].status != Running
    requires s'.pending == s.pending && s'.running == s.running - multiset{id}
    ensures Weak(s')
  {
    hide RunningFound, Ids, Replaces, IsLast;
    ReplacesListed(s.plan.nodes, s'.plan.nodes, k);
    ReplacesKeepsFound(s.plan.nodes, s'.plan.nodes, k, s.running, s'.running);
  }

  lemma FinishKeepsWeak(cfg: Config, s: State, id: string, o: Outcome)
    requires Weak(s) && Enabled(cfg, s, Finish(id, o))
    ensures Weak(Next(cfg, s, Finish(id, o)))
  {
    assert s.phase == InBatch && id in Ids(s.plan.nodes);
    hide Weak, FinishNodes, FinishCounts, NextDepth, Ids, FindIndex, Replaces, IsLast, Next, Enabled;
    FinishReplaces(cfg, s.plan.nodes, s.counts, id, o);
    FinishedFields(cfg, s, id, o);
    ReplacedWeak(s, Next(cfg, s, Finish(id, o)), id, FindIndex(s.plan.nodes, id).value);
  }

  lemma StepKeepsWeak(cfg: Config, s: State, e: Event)
    requires Weak(s) && Enabled(cfg, s, e)
    ensures Weak(Next(cfg, s, e)) && !e.Wait?
  {
    hide RunningFound, CollectRunnable, CountInFlight, DerivePlanStatus, StartNodes, FinishNodes, FinishCounts,
         NextDepth, CanStart, Ids;
    match e
    case Dispatch => BatchListed(s.plan.nodes);
    case Start(id) => StartKeepsWeak(cfg, s, id);
    case Finish(id, o) => FinishKeepsWeak(cfg, s, id, o);
    case Wait => NothingInFlight(s.plan.nodes);
    case _ =>
  }

  lemma NotStarted(nodes: seq<PlanNode>, id: string)
    requires !CanStart(nodes, id)
    ensures StartNodes(nodes, id) == nodes
  {
    hide CanStart;
  }

  // ---- what each id can still cause ----

  /** What dispatching `n` can still cause, its own dispatch included. */
  function Full(D: nat, B: nat, counts: map<string, nat>, depth: map<string, nat>, n: string): nat {
    1 + Remaining(counts, n) * (1 + B * Child(D, B, DepthOf(depth, n)))
  }

  /** A settled id without a running task causes nothing more. */
  predicate AtRest(m: map<string, PlanNode>, running: multiset<string>, n: string) {
    n in m && IsTerminalStatus(m[n].status) && n !in running
  }

  function IdWeight(D: nat, B: nat, s: State, n: string): nat {
    if AtRest(View(s), s.running, n) then 0 else Full(D, B, s.counts, s.depth, n)
  }

  function IdWeights(D: nat, B: nat, s: State): string -> nat {
    n => IdWeight(D, B, s, n)
  }

  /** Copies of one id count as often as they are listed. */
  function IdPotential(D: nat, B: nat, s: State): nat {
    Sum(IdList(s.plan.nodes), IdWeights(D, B, s))
  }

  lemma FullBound(D: nat, B: nat, counts: map<string, nat>, depth: map<string, nat>, n: string)
    ensures Full(D, B, counts, depth, n) <= Budget(D, B, DepthOf(depth, n))
  {
    var r, y := Remaining(counts, n), 1 + B * Child(D, B, DepthOf(depth, n));
    assert r * y <= 3 * y by { MulMono(r, 3, y); }
  }

  lemma {:induction false} TableAtLast(nodes: seq<PlanNode>, k: nat)
    requires k < |nodes| && IsLast(nodes, k)
    ensures nodes[k].id in NodeMap(nodes) && NodeMap(nodes)[nodes[k].id] == nodes[k]
    decreases |nodes|
  {
    if k < |nodes| - 1 {
      TableAtLast(nodes[..|nodes| - 1], k);
    }
  }

  lemma ReplacedInTable(nodes: seq<PlanNode>, nodes': seq<PlanNode>, k: nat)
    requires Replaces(nodes, nodes', k) && IsLast(nodes, k)
    ensures nodes[k].id in NodeMap(nodes') && NodeMap(nodes')[nodes[k].id] == nodes'[k]
  {
    assert nodes[k].id in Ids(nodes);
    hide NodeMap, Ids;
    TableAtLast(nodes', k);
  }

  // ---- starting ----

  lemma StartKeepsWeights(D: nat, B: nat, cfg: Config, s: State, id: string, n: string)
    requires Enabled(cfg, s, Start(id)) && CanStart(s.plan.nodes, id)
    ensures IdWeight(D, B, Next(cfg, s, Start(id)), n) == IdWeight(D, B, s, n)
  {
    hide NodeMap, Full, SetNode, FindIndex, Ids;
    SetNodeMap(s.plan.nodes, s.plan.nodes[FindIndex(s.plan.nodes, id).value].(status := Running));
  }

  lemma StartKeepsIdPotential(D: nat, B: nat, cfg: Config, s: State, id: string)
    requires Enabled(cfg, s, Start(id))
    ensures IdPotential(D, B, Next(cfg, s, Start(id))) == IdPotential(D, B, s)
  {
    hide IdWeight, NodeMap, SetNode, FindIndex, CanStart, Sum;
    var s' := Next(cfg, s, Start(id));
    if CanStart(s.plan.nodes, id) {
      StartKeepsIds(s.plan.nodes, id);
      forall n ensures IdWeights(D, B, s')(n) == IdWeights(D, B, s)(n) {
        StartKeepsWeights(D, B, cfg, s, id, n);
      }
      SumCongruent(IdList(s.plan.nodes), IdWeights(D, B, s), IdWeights(D, B, s'));
    } else {
      NotStarted(s.plan.nodes, id);
      SameWeights(D, B, s, s');
    }
  }

  lemma StartKeepsIds(nodes: seq<PlanNode>, id: string)
    ensures IdList(StartNodes(nodes, id)) == IdList(nodes)
  {
    hide CanStart, Ids, NodeMap;
  }

  lemma SameWeights(D: nat, B: nat, s: State, s': State)
    requires s'.plan.nodes == s.plan.nodes && s'.running == s.running && s'.counts == s.counts && s'.depth == s.depth
    ensures IdPotential(D, B, s') == IdPotential(D, B, s)
  {
    hide Full, AtRest;
    SumCongruent(IdList(s.plan.nodes), IdWeights(D, B, s), IdWeights(D, B, s'));
  }

  // ---- finishing ----

  /** Weights of the other ids do not see a finish. */
  lemma OtherIds(D: nat, B: nat, cfg: Config, s: State, id: string, o: Outcome, n: string)
    requires id in Ids(s.plan.nodes) && n in Ids(s.plan.nodes) && n != id
    ensures IdWeight(D, B, Next(cfg, s, Finish(id, o)), n) == IdWeight(D, B, s, n)
  {
    OtherTable(cfg, s, id, o, n);
    OtherFull(D, B, cfg, s, id, o, n);
    FinishedTable(cfg, s, id, o);
    hide View, Full, FinishNodes, FinishCounts, NextDepth, Ids, Next, IsTerminalStatus;
  }

  lemma OtherTable(cfg: Config, s: State, id: string, o: Outcome, n: string)
    requires id in Ids(s.plan.nodes) && n in Ids(s.plan.nodes) && n != id
    ensures var s' := Next(cfg, s, Finish(id, o)); n in View(s) && n in View(s') && View(s')[n] == View(s)[n]
  {
    FinishedTable(cfg, s, id, o);
    FinishApart(cfg, s.plan.nodes, s.counts, id, o);
    hide NodeMap, FinishNodes, Ids, Next;
  }

  lemma OtherFull(D: nat, B: nat, cfg: Config, s: State, id: string, o: Outcome, n: string)
    requires n in Ids(s.plan.nodes) && n != id
    ensures Full(D, B, FinishCounts(cfg, s.counts, id, o), NextDepth(cfg, s, id, o), n)
         == Full(D, B, s.counts, s.depth, n)
  {
    hide Remapped, Child;
    RemappedDisjoint(cfg, s, id, o);
  }

  /** What a finish takes from the weight of its own id. */
  function Drop(D: nat, B: nat, cfg: Config, s: State, id: string, o: Outcome): nat {
    if Injects(cfg, s.counts, id, o) then 1 + B * Child(D, B, DepthOf(s.depth, id))
    else if s.running[id] == 1 then 1
    else 0
  }

  lemma FinishedStatus(cfg: Config, nodes: seq<PlanNode>, counts: map<string, nat>, id: string, o: Outcome)
    requires id in Ids(nodes)
    ensures var m' := NodeMap(FinishNodes(cfg, nodes, counts, id, o));
            id in m' && (!Injects(cfg, counts, id, o) <==> IsTerminalStatus(m'[id].status))
  {
    var nodes' := FinishNodes(cfg, nodes, counts, id, o);
    var k := FindIndex(nodes, id).value;
    FinishReplaces(cfg, nodes, counts, id, o);
    assert k < |nodes| && nodes[k].id == id;
    if Injects(cfg, counts, id, o) {
      InjectReplaces(nodes, id, o.answer.subs);
      assert nodes'[k].status == Draft;
    } else {
      SettleReplaces(cfg, nodes, counts, id, o);
    }
    hide NodeMap, FindIndex, FinishNodes, Ids, Replaces, IsLast, Injects;
    ReplacedInTable(nodes, nodes', k);
  }

  /** The finished task's id afterwards. */
  lemma FinishedTable(cfg: Config, s: State, id: string, o: Outcome)
    requires id in Ids(s.plan.nodes)
    ensures var s' := Next(cfg, s, Finish(id, o));
            && s'.plan.nodes == FinishNodes(cfg, s.plan.nodes, s.counts, id, o)
            && s'.running == s.running - multiset{id}
            && s'.counts == FinishCounts(cfg, s.counts, id, o) && s'.depth == NextDepth(cfg, s, id, o)
            && id in View(s') && (!Injects(cfg, s.counts, id, o) <==> IsTerminalStatus(View(s')[id].status))
  {
    hide NodeMap, Next, FinishNodes, FinishCounts, NextDepth, Ids, Injects;
    FinishedFields(cfg, s, id, o);
    FinishedStatus(cfg, s.plan.nodes, s.counts, id, o);
  }

  lemma OwnDrop(D: nat, B: nat, cfg: Config, s: State, id: string, o: Outcome)
    requires id in Ids(s.plan.nodes) && id in s.running
    ensures IdWeight(D, B, Next(cfg, s, Finish(id, o)), id) + Drop(D, B, cfg, s, id, o) <= IdWeight(D, B, s, id)
  {
    hide View, Full, FinishNodes, FinishCounts, NextDepth, Ids, Injects, Child, Next, IsTerminalStatus;
    FinishedTable(cfg, s, id, o);
    FullDrops(D, B, cfg, s, id, o);
  }

  lemma FullDrops(D: nat, B: nat, cfg: Config, s: State, id: string, o: Outcome)
    requires id in Ids(s.plan.nodes)
    ensures var after := Full(D, B, FinishCounts(cfg, s.counts, id, o), NextDepth(cfg, s, id, o), id);
            && after <= Full(D, B, s.counts, s.depth, id)
            && (Injects(cfg, s.counts, id, o) ==>
                 after + 1 + B * Child(D, B, DepthOf(s.depth, id)) == Full(D, B, s.counts, s.depth, id))
    ensures Full(D, B, s.counts, s.depth, id) >= 1
  {
    hide Child, NextDepth, Ids;
    DepthKept(cfg, s, id, o);
    var y := 1 + B * Child(D, B, DepthOf(s.depth, id));
    if Injects(cfg, s.counts, id, o) {
      RemainingDrops(cfg, s.counts, id, o);
      OneLess(Remaining(s.counts, id), y);
    } else {
      RemainingNotUp(cfg, s.counts, id, o);
      MulMono(Remaining(FinishCounts(cfg, s.counts, id, o), id), Remaining(s.counts, id), y);
    }
  }

  lemma RemainingNotUp(cfg: Config, counts: map<string, nat>, id: string, o: Outcome)
    ensures Remaining(FinishCounts(cfg, counts, id, o), id) <= Remaining(counts, id)
  {
  }

  /** The injected ids weigh at most what the originator set aside for them. */
  lemma InjectedIdsWeigh(D: nat, B: nat, cfg: Config, s: State, id: string, o: Outcome)
    requires Injects(cfg, s.counts, id, o) && Shallow(D, B, cfg, s, Finish(id, o))
    ensures var s' := Next(cfg, s, Finish(id, o));
            Sum(IdList(Remapped(Ids(s.plan.nodes), id, o.answer.subs)), IdWeights(D, B, s'))
            <= B * Child(D, B, DepthOf(s.depth, id))
  {
    hide Full, FinishCounts, Budget, RemapNode, IdMap, FreshIds, AtRest, FinishNodes;
    var s' := Next(cfg, s, Finish(id, o));
    var injected := Remapped(Ids(s.plan.nodes), id, o.answer.subs);
    var ids, c := IdList(injected), Child(D, B, DepthOf(s.depth, id));
    forall i | 0 <= i < |ids| ensures IdWeights(D, B, s')(ids[i]) <= c {
      FullBound(D, B, s'.counts, s'.depth, ids[i]);
      PlaceInIds(injected, i);
      assert DepthOf(s'.depth, ids[i]) == DepthOf(s.depth, id) + 1;
    }
    SumBound(ids, IdWeights(D, B, s'), c);
    MulMono(|ids|, B, c);
  }

  lemma OldIdsDrop(D: nat, B: nat, cfg: Config, s: State, id: string, o: Outcome)
    requires id in Ids(s.plan.nodes) && id in s.running
    ensures Sum(IdList(s.plan.nodes), IdWeights(D, B, Next(cfg, s, Finish(id, o)))) + Drop(D, B, cfg, s, id, o)
         <= IdPotential(D, B, s)
  {
    var nodes, s' := s.plan.nodes, Next(cfg, s, Finish(id, o));
    var k := FindIndex(nodes, id).value;
    OwnDrop(D, B, cfg, s, id, o);
    assert k < |nodes| && nodes[k].id == id;
    hide Next, IdWeight, FindIndex, Sum, Ids, Drop;
    forall j | 0 <= j < |nodes| ensures IdWeight(D, B, s', nodes[j].id) <= IdWeight(D, B, s, nodes[j].id) {
      PlaceInIds(nodes, j);
      if nodes[j].id != id {
        OtherIds(D, B, cfg, s, id, o, nodes[j].id);
      }
    }
    SumDrops(IdList(nodes), k, IdWeights(D, B, s), IdWeights(D, B, s'), Drop(D, B, cfg, s, id, o));
  }

  /** The potential drops when an injection pays for its nodes, or when an id's last task settles it. */
  lemma FinishLowersIdPotential(D: nat, B: nat, cfg: Config, s: State, id: string, o: Outcome)
    requires Weak(s) && Enabled(cfg, s, Finish(id, o)) && Shallow(D, B, cfg, s, Finish(id, o))
    ensures var s' := Next(cfg, s, Finish(id, o));
            IdPotential(D, B, s') + (if Injects(cfg, s.counts, id, o) || id !in s'.running then 1 else 0)
            <= IdPotential(D, B, s)
  {
    assert id in Ids(s.plan.nodes) && id in s.running;
    hide Weak, Enabled, Next, IdWeights, FinishNodes, Sum, Ids, Shallow, Injects, Child;
    OldIdsDrop(D, B, cfg, s, id, o);
    LastTask(cfg, s, id, o);
    FinishIds(cfg, s.plan.nodes, s.counts, id, o);
    if Injects(cfg, s.counts, id, o) {
      InjectedIdsWeigh(D, B, cfg, s, id, o);
      SumAppend(IdList(s.plan.nodes), IdList(Remapped(Ids(s.plan.nodes), id, o.answer.subs)),
                IdWeights(D, B, Next(cfg, s, Finish(id, o))));
    }
  }

  lemma LastTask(cfg: Config, s: State, id: string, o: Outcome)
    requires id in s.running
    ensures id !in Next(cfg, s, Finish(id, o)).running <==> s.running[id] == 1
    ensures Next(cfg, s, Finish(id, o)).plan.nodes == FinishNodes(cfg, s.plan.nodes, s.counts, id, o)
  {
    hide FinishNodes, FinishCounts, NextDepth;
  }

  lemma FinishIds(cfg: Config, nodes: seq<PlanNode>, counts: map<string, nat>, id: string, o: Outcome)
    requires id in Ids(nodes)
    ensures IdList(FinishNodes(cfg, nodes, counts, id, o)) ==
      if Injects(cfg, counts, id, o) then IdList(nodes) + IdList(Remapped(Ids(nodes), id, o.answer.subs))
      else IdList(nodes)
  {
    hide Ids, NodeMap, FindIndex, Inject, SettledNode;
    if Injects(cfg, counts, id, o) {
      InjectReplaces(nodes, id, o.answer.subs);
    } else {
      SettleReplaces(cfg, nodes, counts, id, o);
    }
  }

  // ---- a measure of the whole state ----

  /** In a batch, a task runs or can still start. */
  ghost predicate Working(s: State) {
    s.phase == InBatch && (s.running != multiset{} || exists id :: id in s.pending && CanStart(s.plan.nodes, id))
  }

  /** A batch at work has already spent one unit. */
  ghost function Outlook(D: nat, B: nat, s: State): int {
    IdPotential(D, B, s) - (if Working(s) then 1 else 0)
  }

  function Local(s: State): nat {
    match s.phase
    case Finished => 0
    case AtHead => 1
    case InBatch => 2 + 2 * |s.pending| + |s.running|
  }

  lemma OutlookNonNegative(D: nat, B: nat, s: State)
    requires Weak(s)
    ensures Outlook(D, B, s) >= 0
  {
    hide IdPotential, CanStart, RunningFound;
    if Working(s) {
      if s.running != multiset{} {
        var id :| id in s.running;
        Weighs(D, B, s, id);
      } else {
        var id :| id in s.pending && CanStart(s.plan.nodes, id);
        Unsettled(s.plan.nodes, id);
        Weighs(D, B, s, id);
      }
    }
  }

  lemma Unsettled(nodes: seq<PlanNode>, id: string)
    requires CanStart(nodes, id)
    ensures id in NodeMap(nodes) && !IsTerminalStatus(NodeMap(nodes)[id].status)
  {
    hide NodeMap;
  }

  lemma Weighs(D: nat, B: nat, s: State, id: string)
    requires id in Ids(s.plan.nodes) && !AtRest(View(s), s.running, id)
    ensures IdPotential(D, B, s) >= 1
  {
    hide AtRest, NodeMap, View;
    var k :| 0 <= k < |s.plan.nodes| && s.plan.nodes[k].id == id;
    SumAt(IdList(s.plan.nodes), k, IdWeights(D, B, s));
  }

  /** A dispatch of no shadowed node dispatches one that can start. */
  lemma DispatchWorks(cfg: Config, s: State)
    requires Enabled(cfg, s, Dispatch) && forall i :: !Shadowed(s.plan.nodes, i)
    ensures Working(Next(cfg, s, Dispatch))
  {
    var nodes, r := s.plan.nodes, CollectRunnable(s.plan.nodes);
    assert r[0] in r;
    var i :| 0 <= i < |nodes| && nodes[i] == r[0];
    assert !Shadowed(nodes, i);
    hide IsRunnable, NodeMap, Filter;
    assert IdList(r)[0] == nodes[i].id;
    UnshadowedStarts(nodes, i);
  }

  lemma UnshadowedStarts(nodes: seq<PlanNode>, i: nat)
    requires i < |nodes| && IsRunnable(nodes[i], NodeMap(nodes)) && !Shadowed(nodes, i)
    ensures CanStart(nodes, nodes[i].id)
  {
    assert nodes[i].id in Ids(nodes);
    hide NodeMap, IsRunnable, Ids;
  }

  ghost predicate Below(D: nat, B: nat, s': State, s: State) {
    Outlook(D, B, s') < Outlook(D, B, s) || (Outlook(D, B, s') == Outlook(D, B, s) && Local(s') < Local(s))
  }

  lemma DispatchDescends(D: nat, B: nat, cfg: Config, s: State)
    requires Weak(s) && Enabled(cfg, s, Dispatch) && forall i :: !Shadowed(s.plan.nodes, i)
    ensures Below(D, B, Next(cfg, s, Dispatch), s)
  {
    DispatchWorks(cfg, s);
    hide IdPotential, CollectRunnable, RunningFound, CanStart;
    SameWeights(D, B, s, Next(cfg, s, Dispatch));
  }

  lemma StartDescends(D: nat, B: nat, cfg: Config, s: State, id: string)
    requires Enabled(cfg, s, Start(id))
    ensures Below(D, B, Next(cfg, s, Start(id)), s)
  {
    StartKeepsIdPotential(D, B, cfg, s, id);
    hide IdPotential, CanStart, StartNodes;
    var s' := Next(cfg, s, Start(id));
    assert |s.pending - multiset{id}| == |s.pending| - 1;
    if !CanStart(s.plan.nodes, id) {
      NotStarted(s.plan.nodes, id);
      StillWorking(s, s', id);
    }
  }

  lemma StillWorking(s: State, s': State, id: string)
    requires s.phase == InBatch && s' == s.(pending := s.pending - multiset{id}) && !CanStart(s.plan.nodes, id)
    ensures Working(s') <==> Working(s)
  {
    hide CanStart;
    forall n | n != id ensures n in s'.pending <==> n in s.pending {
    }
  }

  lemma BusyWorks(s: State)
    requires s.phase == InBatch && s.running != multiset{}
    ensures Working(s)
  {
    hide CanStart;
  }

  lemma FinishedBelow(D: nat, B: nat, s: State, s': State, id: string, drop: nat)
    requires s.phase == InBatch && s'.phase == InBatch && id in s.running
    requires s'.running == s.running - multiset{id} && s'.pending == s.pending
    requires drop > 0 || s'.running != multiset{}
    requires IdPotential(D, B, s') + drop <= IdPotential(D, B, s)
    ensures Below(D, B, s', s)
  {
    hide IdPotential, Working;
    BusyWorks(s);
    assert |s.running - multiset{id}| == |s.running| - 1;
    if s'.running != multiset{} {
      BusyWorks(s');
    }
  }

  lemma FinishDescends(D: nat, B: nat, cfg: Config, s: State, id: string, o: Outcome)
    requires Weak(s) && Enabled(cfg, s, Finish(id, o)) && Shallow(D, B, cfg, s, Finish(id, o))
    ensures Below(D, B, Next(cfg, s, Finish(id, o)), s)
  {
    var s' := Next(cfg, s, Finish(id, o));
    assert s.phase == InBatch && id in s.running;
    hide IdPotential, FinishNodes, FinishCounts, NextDepth, Injects, Weak, Shallow, Next, Enabled, Below;
    FinishLowersIdPotential(D, B, cfg, s, id, o);
    FinishedFields(cfg, s, id, o);
    FinishedBelow(D, B, s, s', id, if Injects(cfg, s.counts, id, o) || id !in s'.running then 1 else 0);
  }

  lemma OtherDescends(D: nat, B: nat, cfg: Config, s: State, e: Event)
    requires Weak(s) && Enabled(cfg, s, e) && (e.Join? || e.Stop?)
    ensures Below(D, B, Next(cfg, s, e), s)
  {
    hide IdPotential, CanStart, CollectRunnable, CountInFlight, DerivePlanStatus, RunningFound;
    SameWeights(D, B, s, Next(cfg, s, e));
  }

  /** Every step but the dispatch of a shadowed node descends. */
  lemma StepDescends(D: nat, B: nat, cfg: Config, s: State, e: Event)
    requires Weak(s) && Enabled(cfg, s, e) && Shallow(D, B, cfg, s, e)
    requires e.Dispatch? ==> forall i :: !Shadowed(s.plan.nodes, i)
    ensures Below(D, B, Next(cfg, s, e), s)
  {
    hide Weak, Enabled, Shallow, Shadowed, Below, Next;
    match e
    case Dispatch => DispatchDescends(D, B, cfg, s);
    case Start(id) => StartDescends(D, B, cfg, s, id);
    case Finish(id, o) => FinishDescends(D, B, cfg, s, id, o);
    case Wait => StepKeepsWeak(cfg, s, e);
    case _ => OtherDescends(D, B, cfg, s, e);
  }

  // ---- endless runs ----

  /** The n-th step of a run that goes on, with nesting at most D and answers of at most B nodes. */
  ghost predicate GoesOn(D: nat, B: nat, cfg: Config, states: nat -> State, events: nat -> Event, n: nat) {
    && Enabled(cfg, states(n), events(n)) && Shallow(D, B, cfg, states(n), events(n))
    && states(n + 1) == Next(cfg, states(n), events(n))
  }

  lemma {:induction false} ComesToShadowed(D: nat, B: nat, cfg: Config, states: nat -> State, events: nat -> Event,
                                           n: nat)
    returns (k: nat, i: nat)
    requires Weak(states(n)) && forall j: nat :: n <= j ==> GoesOn(D, B, cfg, states, events, j)
    ensures n <= k && events(k) == Dispatch && Trapped(states(k), i)
    decreases Outlook(D, B, states(n)), Local(states(n))
  {
    hide Weak, Enabled, Shallow, Shadowed, Outlook, Next;
    var s, e := states(n), events(n);
    assert GoesOn(D, B, cfg, states, events, n);
    OutlookNonNegative(D, B, s);
    if e.Dispatch? && exists j :: Shadowed(s.plan.nodes, j) {
      var j: nat :| Shadowed(s.plan.nodes, j);
      HeadIsTrapped(cfg, s, j);
      k, i := n, j;
    } else {
      StepKeepsWeak(cfg, s, e);
      StepDescends(D, B, cfg, s, e);
      k, i := ComesToShadowed(D, B, cfg, states, events, n + 1);
    }
  }

  lemma HeadIsTrapped(cfg: Config, s: State, i: nat)
    requires Weak(s) && Enabled(cfg, s, Dispatch) && Shadowed(s.plan.nodes, i)
    ensures Trapped(s, i)
  {
    hide RunningFound, Shadowed, CollectRunnable;
    ShadowPlace(s.plan.nodes, i);
  }

  /**
   Every endless run with bounded nesting comes to a state from which no run ends: a batch dispatches
   a node whose id finds a settled one. With RepeatedIds.TrappedNeverEnds, and since distinct ids
   shadow nothing, this says exactly when the loop does not terminate.
   */
  lemma EndlessIsTrapped(D: nat, B: nat, cfg: Config, plan: ExecutionPlan, counts: map<string, nat>,
                         states: nat -> State, events: nat -> Event)
    returns (k: nat, i: nat)
    requires forall j :: 0 <= j < |plan.nodes| ==> plan.nodes[j].status != Running
    requires states(0) == InitialState(plan, counts)
    requires forall n: nat :: GoesOn(D, B, cfg, states, events, n)
    ensures Trapped(states(k), i) && !DistinctIds(states(k).plan.nodes)
    ensures forall es :: Steps(cfg, states(k), es) ==> Final(cfg, states(k), es).phase != Finished
  {
    hide Weak, GoesOn, Trapped, DistinctIds;
    InitialWeak(plan, counts);
    k, i := ComesToShadowed(D, B, cfg, states, events, 0);
    TrappedRepeats(states(k), i);
    forall es | Steps(cfg, states(k), es) ensures Final(cfg, states(k), es).phase != Finished {
      TrappedNeverEnds(cfg, states(k), i, es);
    }
  }

  lemma TrappedRepeats(s: State, i: nat)
    requires Trapped(s, i)
    ensures !DistinctIds(s.plan.nodes)
  {
    hide Shadowed, DistinctIds;
    if DistinctIds(s.plan.nodes) {
      DistinctNotShadowed(s.plan.nodes, i);
    }
  }
}
