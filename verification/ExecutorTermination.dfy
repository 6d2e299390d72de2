/** How often nodes are dispatched, and how long a run can be, although it may grow its own plan. */
module ExecutorTermination {
  import opened Wrappers
  import opened Sums
  import opened Models
  import opened Injection
  import opened InjectionTheorems
  import opened ExecutorModel
  import opened ExecutorSafety
  import opened ExecutorRuns

  // ---- each node is dispatched at most four times ----

  /** Injections the node may still trigger. */
  function Remaining(counts: map<string, nat>, id: string): nat {
    if Attempts(counts, id) >= MAX_INJECTION_ATTEMPTS then 0 else MAX_INJECTION_ATTEMPTS - Attempts(counts, id)
  }

  function Starts(es: seq<Event>, id: string): nat {
    if es == [] then 0 else (if es[0] == Start(id) then 1 else 0) + Starts(es[1..], id)
  }

  /** Dispatches the node has left, not counting the one in progress. */
  function DispatchesLeft(s: State, id: string): int {
    Left(View(s), s.counts, s.running, id)
  }

  function Left(m: map<string, PlanNode>, counts: map<string, nat>, running: multiset<string>, id: string): int {
    (if id in m && IsTerminalStatus(m[id].status) then 0 else 1 + Remaining(counts, id))
    - (if id in running then 1 else 0)
  }

  lemma LeftOfStarted(m: map<string, PlanNode>, counts: map<string, nat>, running: multiset<string>, id: string,
                      n: string)
    requires id in m && !IsTerminalStatus(m[id].status) && id !in running
    ensures Left(m[id := m[id].(status := Running)], counts, running + multiset{id}, n)
         == Left(m, counts, running, n) - (if n == id then 1 else 0)
  {
    hide Remaining;
  }

  lemma DispatchesLeftStart(cfg: Config, s: State, e: Event, n: string)
    requires Inv(cfg, s) && Enabled(cfg, s, e) && e.Start?
    ensures DispatchesLeft(Next(cfg, s, e), n) == DispatchesLeft(s, n) - (if e == Start(n) then 1 else 0)
  {
    StartMarksRunning(cfg, s, e.id);
    hide Inv, NodeMap, StartNodes, Remaining, CanStart, OthersKept, PlanGraph, DistinctIds, DependenciesMet, Left;
    LeftOfStarted(View(s), s.counts, s.running, e.id, n);
  }

  lemma LeftOfFinished(m: map<string, PlanNode>, m': map<string, PlanNode>, counts: map<string, nat>,
                       counts': map<string, nat>, running: multiset<string>, id: string, n: string)
    requires OthersKept(m, m', id) && id in m && running[id] == 1 && !IsTerminalStatus(m[id].status)
    requires n != id ==> Remaining(counts', n) == Remaining(counts, n)
    requires (id in m' && IsTerminalStatus(m'[id].status)) || Remaining(counts', id) < Remaining(counts, id)
    ensures Left(m', counts', running - multiset{id}, n) <= Left(m, counts, running, n)
  {
    hide Remaining;
    if n == id {
      assert n !in running - multiset{id};
    } else {
      assert n in running - multiset{id} <==> n in running;
    }
  }

  lemma RunningOnce(cfg: Config, s: State, id: string)
    requires Inv(cfg, s) && id in s.running
    ensures id in View(s) && View(s)[id].status == Running && s.running[id] == 1 && DistinctIds(s.plan.nodes)
  {
    hide DistinctIds, CompletedClosed, PendingRunnable, DependenciesMet, NodeMap;
    RunningMember(s.running, id);
  }

  lemma OtherRemaining(cfg: Config, counts: map<string, nat>, id: string, o: Outcome, n: string)
    ensures n != id ==> Remaining(FinishCounts(cfg, counts, id, o), n) == Remaining(counts, n)
  {
  }

  /** A finish leaves no node more dispatches than it had. */
  lemma DispatchesLeftFinish(cfg: Config, s: State, e: Event, n: string)
    requires Inv(cfg, s) && Enabled(cfg, s, e) && Benign(cfg, s, e) && e.Finish?
    ensures DispatchesLeft(Next(cfg, s, e), n) <= DispatchesLeft(s, n)
  {
    assert e.id in s.running;
    hide Inv, Enabled, Next, DistinctIds, NodeMap, FinishNodes, NextDepth, Benign, OthersKept, Remaining,
         FinishCounts, Left, IsTerminalStatus;
    RunningOnce(cfg, s, e.id);
    RunningIsUnsettled();
    OtherRemaining(cfg, s.counts, e.id, e.outcome, n);
    OtherRemaining(cfg, s.counts, e.id, e.outcome, e.id);
    FinishedLeft(cfg, s, e.id, e.outcome);
    FinishedFields(cfg, s, e.id, e.outcome);
    LeftOfFinished(View(s), View(Next(cfg, s, e)), s.counts, Next(cfg, s, e).counts, s.running, e.id, n);
  }

  lemma RunningIsUnsettled()
    ensures !IsTerminalStatus(Running)
  {
  }

  lemma FinishedLeft(cfg: Config, s: State, id: string, o: Outcome)
    requires DistinctIds(s.plan.nodes) && id in View(s) && Benign(cfg, s, Finish(id, o))
    ensures var m' := NodeMap(FinishNodes(cfg, s.plan.nodes, s.counts, id, o));
            && OthersKept(View(s), m', id)
            && ((id in m' && IsTerminalStatus(m'[id].status))
                || Remaining(FinishCounts(cfg, s.counts, id, o), id) < Remaining(s.counts, id))
  {
    hide DistinctIds, NodeMap, FinishNodes, Benign, OthersKept, Remaining, FinishCounts, SettledNode, PlanGraph;
    if Injects(cfg, s.counts, id, o) {
      FinishInjects(cfg, s, id, o);
      RemainingDrops(cfg, s.counts, id, o);
    } else {
      FinishSettles(cfg, s, id, o);
    }
  }

  /** Under every interleaving a node starts at most once more than its remaining injections: at most four times. */
  lemma {:induction false} StartsBounded(cfg: Config, s: State, es: seq<Event>, n: string)
    requires Inv(cfg, s) && Runs(cfg, s, es)
    ensures Starts(es, n) <= DispatchesLeft(s, n) <= MAX_INJECTION_ATTEMPTS + 1
    decreases |es|
  {
    hide Inv, Enabled, Benign, Next, View;
    DispatchesLeftNonNegative(cfg, s, n);
    if es != [] {
      StepKeepsInv(cfg, s, es[0]);
      if es[0].Start? {
        DispatchesLeftStart(cfg, s, es[0], n);
      } else if es[0].Finish? {
        DispatchesLeftFinish(cfg, s, es[0], n);
      } else {
        OtherStepsKeepCounts(cfg, s, es[0]);
      }
      StartsBounded(cfg, Next(cfg, s, es[0]), es[1..], n);
    }
  }

  lemma DispatchesLeftNonNegative(cfg: Config, s: State, n: string)
    requires Inv(cfg, s)
    ensures 0 <= DispatchesLeft(s, n) <= MAX_INJECTION_ATTEMPTS + 1
  {
    hide DistinctIds, CompletedClosed, DependenciesMet, NodeMap, PendingRunnable;
  }

  lemma OtherStepsKeepCounts(cfg: Config, s: State, e: Event)
    requires Enabled(cfg, s, e) && !e.Start? && !e.Finish?
    ensures var s' := Next(cfg, s, e);
            && View(s') == View(s) && s'.counts == s.counts && s'.running == s.running && s'.depth == s.depth
            && s'.plan.nodes == s.plan.nodes
  {
  }

  // ---- the whole run, when injections nest at most D deep with at most B nodes each ----

  /** Dispatches one node of nesting depth `d` can cause, itself included. */
  function Budget(D: nat, B: nat, d: nat): nat
    decreases D - d
  {
    4 + 3 * (B * (if d < D then Budget(D, B, d + 1) else 0))
  }

  function Child(D: nat, B: nat, d: nat): nat {
    if d < D then Budget(D, B, d + 1) else 0
  }

  function DepthOf(depth: map<string, nat>, id: string): nat {
    if id in depth then depth[id] else 0
  }

  /** Dispatches the node can still cause. */
  function Weight(D: nat, B: nat, counts: map<string, nat>, depth: map<string, nat>, node: PlanNode): nat {
    if IsTerminalStatus(node.status) then 0
    else 1 + Remaining(counts, node.id) * (1 + B * Child(D, B, DepthOf(depth, node.id)))
  }

  function WeightOf(D: nat, B: nat, counts: map<string, nat>, depth: map<string, nat>): PlanNode -> nat {
    node => Weight(D, B, counts, depth, node)
  }

  function Potential(D: nat, B: nat, s: State): nat {
    Sum(s.plan.nodes, WeightOf(D, B, s.counts, s.depth))
  }

  /** The environment's bound: an injecting node is less than D deep, and gets at most B sub-nodes. */
  ghost predicate Shallow(D: nat, B: nat, cfg: Config, s: State, e: Event) {
    e.Finish? && Injects(cfg, s.counts, e.id, e.outcome) ==>
      var subs := e.outcome.answer.subs;
      |subs| <= B && (subs != [] ==> DepthOf(s.depth, e.id) < D)
  }

  lemma WeightBound(D: nat, B: nat, counts: map<string, nat>, depth: map<string, nat>, node: PlanNode)
    ensures Weight(D, B, counts, depth, node) <= Budget(D, B, DepthOf(depth, node.id))
    ensures !IsTerminalStatus(node.status) ==> Weight(D, B, counts, depth, node) >= 1
  {
    var r, x := Remaining(counts, node.id), B * Child(D, B, DepthOf(depth, node.id));
    assert r <= 3;
    assert r * (1 + x) <= 3 * (1 + x) by { MulMono(r, 3, 1 + x); }
  }

  lemma MulMono(a: nat, b: nat, c: nat)
    requires a <= b
    ensures a * c <= b * c
  {
  }

  lemma OneLess(r: nat, y: nat)
    requires r >= 1
    ensures r * y == (r - 1) * y + y
  {
  }

  // ---- one finish lowers the potential ----

  lemma SettledWeight(D: nat, B: nat, counts: map<string, nat>, depth: map<string, nat>, node: PlanNode)
    requires IsTerminalStatus(node.status)
    ensures Weight(D, B, counts, depth, node) == 0
  {
  }

  /** Weights of the other nodes do not see the step. */
  lemma OtherWeights(D: nat, B: nat, cfg: Config, s: State, id: string, o: Outcome, node: PlanNode)
    requires node.id != id && node.id in Ids(s.plan.nodes)
    ensures Weight(D, B, s.counts, s.depth, node)
         == Weight(D, B, FinishCounts(cfg, s.counts, id, o), NextDepth(cfg, s, id, o), node)
  {
    hide Remapped, Child;
    RemappedDisjoint(cfg, s, id, o);
  }

  lemma RemappedDisjoint(cfg: Config, s: State, id: string, o: Outcome)
    ensures Injects(cfg, s.counts, id, o) ==> Ids(Remapped(Ids(s.plan.nodes), id, o.answer.subs)) !! Ids(s.plan.nodes)
  {
    if Injects(cfg, s.counts, id, o) {
      RemappedIds(Ids(s.plan.nodes), id, o.answer.subs);
    }
  }

  /** The place of a running node in the list. */
  lemma RunningPlace(cfg: Config, s: State, id: string) returns (i: nat)
    requires Inv(cfg, s) && id in s.running
    ensures i < |s.plan.nodes| && FindIndex(s.plan.nodes, id) == Some(i)
    ensures s.plan.nodes[i].id == id && s.plan.nodes[i].status == Running
    ensures forall j :: 0 <= j < |s.plan.nodes| && j != i ==> s.plan.nodes[j].id != id
  {
    hide CompletedClosed, DependenciesMet, PendingRunnable, FindIndex;
    i := FindIndex(s.plan.nodes, id).value;
  }

  /** After the step, the list with the node replaced weighs what the replacement changed. */
  lemma ReplacedSum(D: nat, B: nat, cfg: Config, s: State, id: string, o: Outcome, i: nat, node: PlanNode)
    requires i < |s.plan.nodes|
    requires forall j :: 0 <= j < |s.plan.nodes| && j != i ==> s.plan.nodes[j].id != id
    ensures var counts, depth := FinishCounts(cfg, s.counts, id, o), NextDepth(cfg, s, id, o);
            Sum(s.plan.nodes[i := node], WeightOf(D, B, counts, depth))
            + Weight(D, B, s.counts, s.depth, s.plan.nodes[i])
            == Potential(D, B, s) + Weight(D, B, counts, depth, node)
  {
    hide Weight, FinishCounts, NextDepth;
    var counts, depth := FinishCounts(cfg, s.counts, id, o), NextDepth(cfg, s, id, o);
    var f, g := WeightOf(D, B, s.counts, s.depth), WeightOf(D, B, counts, depth);
    forall j | 0 <= j < |s.plan.nodes| && j != i ensures f(s.plan.nodes[j]) == g(s.plan.nodes[j]) {
      OtherWeights(D, B, cfg, s, id, o, s.plan.nodes[j]);
    }
    SumReplace(s.plan.nodes, i, node, f, g);
  }

  lemma SettleDrops(D: nat, B: nat, cfg: Config, s: State, id: string, o: Outcome)
    requires Inv(cfg, s) && Enabled(cfg, s, Finish(id, o)) && !Injects(cfg, s.counts, id, o)
    ensures Potential(D, B, Next(cfg, s, Finish(id, o))) < Potential(D, B, s)
  {
    hide Inv, Weight, SettledNode, FindIndex, FinishCounts, NextDepth, Injects, Ids, WeightOf, Sum;
    var i := RunningPlace(cfg, s, id);
    var settled := SettledNode(cfg, s.counts, s.plan.nodes[i], o);
    ReplacedSum(D, B, cfg, s, id, o, i, settled);
    SettledWeight(D, B, FinishCounts(cfg, s.counts, id, o), NextDepth(cfg, s, id, o), settled);
    WeightBound(D, B, s.counts, s.depth, s.plan.nodes[i]);
  }

  lemma RemainingDrops(cfg: Config, counts: map<string, nat>, id: string, o: Outcome)
    requires Injects(cfg, counts, id, o)
    ensures Remaining(counts, id) >= 1
    ensures Remaining(FinishCounts(cfg, counts, id, o), id) == Remaining(counts, id) - 1
  {
  }

  lemma DepthKept(cfg: Config, s: State, id: string, o: Outcome)
    requires id in Ids(s.plan.nodes)
    ensures DepthOf(NextDepth(cfg, s, id, o), id) == DepthOf(s.depth, id)
  {
    hide Remapped;
    RemappedDisjoint(cfg, s, id, o);
  }

  /** The originator pays for the dispatch and for everything it injects. */
  lemma ResetWeight(D: nat, B: nat, cfg: Config, s: State, id: string, o: Outcome, node: PlanNode, node': PlanNode)
    requires Injects(cfg, s.counts, id, o) && node.id == node'.id == id && id in Ids(s.plan.nodes)
    requires !IsTerminalStatus(node.status) && !IsTerminalStatus(node'.status)
    ensures Weight(D, B, s.counts, s.depth, node)
         == Weight(D, B, FinishCounts(cfg, s.counts, id, o), NextDepth(cfg, s, id, o), node')
            + 1 + B * Child(D, B, DepthOf(s.depth, id))
  {
    hide Injects, Remaining, FinishCounts, NextDepth, Child, DepthOf, Ids, IsTerminalStatus;
    RemainingDrops(cfg, s.counts, id, o);
    DepthKept(cfg, s, id, o);
    OneLess(Remaining(s.counts, id), 1 + B * Child(D, B, DepthOf(s.depth, id)));
  }

  /** The injected nodes weigh at most what the originator set aside for them. */
  lemma InjectedWeight(D: nat, B: nat, cfg: Config, s: State, id: string, o: Outcome)
    requires Injects(cfg, s.counts, id, o) && Shallow(D, B, cfg, s, Finish(id, o))
    ensures var injected := Remapped(Ids(s.plan.nodes), id, o.answer.subs);
            Sum(injected, WeightOf(D, B, FinishCounts(cfg, s.counts, id, o), NextDepth(cfg, s, id, o)))
            <= B * Child(D, B, DepthOf(s.depth, id))
  {
    hide Weight, FinishCounts, Budget, RemapNode, IdMap, FreshIds;
    var injected := Remapped(Ids(s.plan.nodes), id, o.answer.subs);
    var counts, depth := FinishCounts(cfg, s.counts, id, o), NextDepth(cfg, s, id, o);
    var c := Child(D, B, DepthOf(s.depth, id));
    forall i | 0 <= i < |injected| ensures WeightOf(D, B, counts, depth)(injected[i]) <= c {
      WeightBound(D, B, counts, depth, injected[i]);
      assert injected[i].id in Ids(injected);
      assert DepthOf(depth, injected[i].id) == DepthOf(s.depth, id) + 1;
    }
    SumBound(injected, WeightOf(D, B, counts, depth), c);
    MulMono(|injected|, B, c);
  }

  /** An injection replaces the originator in place and appends the injected nodes. */
  lemma InjectShape(nodes: seq<PlanNode>, id: string, subs: seq<PlanNode>, i: nat) returns (node': PlanNode)
    requires FindIndex(nodes, id) == Some(i) && i < |nodes| && nodes[i].id == id
    ensures node'.id == id && node'.status == Draft
    ensures Inject(nodes, id, subs) == nodes[i := node'] + Remapped(Ids(nodes), id, subs)
  {
    hide Remapped, AllDeps, TerminalIds, AddDeps, FindIndex;
    if subs == [] {
      node' := ResetNode(nodes[i]);
      assert nodes[i := node'] + [] == nodes[i := node'];
    } else {
      var injected := Remapped(Ids(nodes), id, subs);
      node' := Rewired(nodes[i], TerminalIds(injected, AllDeps(injected)));
    }
  }

  lemma InjectDrops(D: nat, B: nat, cfg: Config, s: State, id: string, o: Outcome)
    requires Inv(cfg, s) && Enabled(cfg, s, Finish(id, o)) && Injects(cfg, s.counts, id, o)
    requires Shallow(D, B, cfg, s, Finish(id, o))
    ensures Potential(D, B, Next(cfg, s, Finish(id, o))) < Potential(D, B, s)
  {
    hide Inv, Weight, FindIndex, FinishCounts, NextDepth, Ids, WeightOf, Sum, Shallow, Remapped, Inject, Child;
    var i := RunningPlace(cfg, s, id);
    var node' := InjectShape(s.plan.nodes, id, o.answer.subs, i);
    var injected := Remapped(Ids(s.plan.nodes), id, o.answer.subs);
    var g := WeightOf(D, B, FinishCounts(cfg, s.counts, id, o), NextDepth(cfg, s, id, o));
    ReplacedSum(D, B, cfg, s, id, o, i, node');
    assert id in Ids(s.plan.nodes) by { PlaceInIds(s.plan.nodes, i); }
    ResetWeight(D, B, cfg, s, id, o, s.plan.nodes[i], node');
    InjectedWeight(D, B, cfg, s, id, o);
    SumAppend(s.plan.nodes[i := node'], injected, g);
  }

  lemma PlaceInIds(nodes: seq<PlanNode>, i: nat)
    requires i < |nodes|
    ensures nodes[i].id in Ids(nodes)
  {
  }

  // ---- every step lowers a measure of the whole state ----

  lemma {:induction false} SumCovers(nodes: seq<PlanNode>, f: PlanNode -> nat, x: set<string>)
    requires x <= Ids(nodes)
    requires forall i :: 0 <= i < |nodes| && nodes[i].id in x ==> f(nodes[i]) >= 1
    ensures |x| <= Sum(nodes, f)
  {
    if nodes == [] {
      assert x == {};
    } else {
      var n, rest := nodes[0].id, nodes[1..];
      assert nodes == [nodes[0]] + rest;
      IdsOfFirst(nodes);
      hide Ids;
      SumCovers(rest, f, x - {n});
      if n in x {
        assert x == (x - {n}) + {n};
      } else {
        assert x == x - {n};
      }
    }
  }

  lemma IdsOfFirst(nodes: seq<PlanNode>)
    requires nodes != []
    ensures Ids(nodes) == {nodes[0].id} + Ids(nodes[1..])
  {
    assert nodes == [nodes[0]] + nodes[1..];
    IdsAppend([nodes[0]], nodes[1..]);
    assert Ids([nodes[0]]) == {nodes[0].id} by {
      assert [nodes[0]][0].id == nodes[0].id;
    }
  }

  lemma DisjointSize<T>(a: set<T>, b: set<T>)
    requires a !! b
    ensures |a + b| == |a| + |b|
  {
  }

  /** Pending and running nodes are different nodes of the plan, none of them settled. */
  lemma BatchUnsettled(cfg: Config, s: State)
    requires Inv(cfg, s)
    ensures Members(s.pending) !! Members(s.running) && Members(s.pending) + Members(s.running) <= Ids(s.plan.nodes)
    ensures DistinctIds(s.plan.nodes)
    ensures forall n :: n in Members(s.pending) + Members(s.running) ==>
      n in View(s) && !IsTerminalStatus(View(s)[n].status)
    ensures |s.pending| == |Members(s.pending)| && |s.running| == |Members(s.running)|
  {
    OnceSize(s.pending);
    OnceSize(s.running);
    ApartInTable(View(s), Members(s.pending), Members(s.running));
    hide CompletedClosed, DependenciesMet, NodeMap, Once, Members, DistinctIds, RunningHeld, PendingRunnable, Ids;
  }

  lemma ApartInTable(m: map<string, PlanNode>, pending: set<string>, running: set<string>)
    requires RunningHeld(m, running) && PendingRunnable(m, pending)
    ensures pending !! running && pending + running <= m.Keys
    ensures forall n :: n in pending + running ==> n in m && !IsTerminalStatus(m[n].status)
  {
    hide DependenciesMet;
  }

  lemma UnsettledWeigh(D: nat, B: nat, s: State, x: set<string>, i: nat)
    requires DistinctIds(s.plan.nodes) && i < |s.plan.nodes| && s.plan.nodes[i].id in x
    requires forall n :: n in x ==> n in View(s) && !IsTerminalStatus(View(s)[n].status)
    ensures Weight(D, B, s.counts, s.depth, s.plan.nodes[i]) >= 1
  {
    hide Weight, IsTerminalStatus, NodeMap;
    NodeMapAt(s.plan.nodes, i);
    WeightBound(D, B, s.counts, s.depth, s.plan.nodes[i]);
  }

  /** Pending and running tasks each have a dispatch to pay for. */
  lemma PotentialCoversBatch(D: nat, B: nat, cfg: Config, s: State)
    requires Inv(cfg, s)
    ensures |s.pending| + |s.running| <= Potential(D, B, s)
  {
    hide Inv, Weight, IsTerminalStatus, NodeMap, DistinctIds, Ids, Sum;
    BatchUnsettled(cfg, s);
    DisjointSize(Members(s.pending), Members(s.running));
    var x := Members(s.pending) + Members(s.running);
    forall i | 0 <= i < |s.plan.nodes| && s.plan.nodes[i].id in x
      ensures WeightOf(D, B, s.counts, s.depth)(s.plan.nodes[i]) >= 1
    {
      UnsettledWeigh(D, B, s, x, i);
    }
    SumCovers(s.plan.nodes, WeightOf(D, B, s.counts, s.depth), x);
  }

  lemma StartKeepsPotential(D: nat, B: nat, cfg: Config, s: State, id: string)
    requires Inv(cfg, s) && Enabled(cfg, s, Start(id))
    ensures Potential(D, B, Next(cfg, s, Start(id))) == Potential(D, B, s)
    ensures id in s.pending && id !in s.running
    ensures Next(cfg, s, Start(id)).pending == s.pending - multiset{id}
    ensures Next(cfg, s, Start(id)).running == s.running + multiset{id}
  {
    StartMarksRunning(cfg, s, id);
    hide Inv, NodeMap, OthersKept, PlanGraph, DistinctIds, IsRunnable, Weight;
    StartedSum(D, B, s.counts, s.depth, s.plan.nodes, id);
  }

  lemma StartedSum(D: nat, B: nat, counts: map<string, nat>, depth: map<string, nat>, nodes: seq<PlanNode>, id: string)
    requires CanStart(nodes, id)
    ensures Sum(StartNodes(nodes, id), WeightOf(D, B, counts, depth)) == Sum(nodes, WeightOf(D, B, counts, depth))
  {
    hide Weight, FindIndex, NodeMap, Ids;
    var i := FindIndex(nodes, id).value;
    RunningWeight(D, B, counts, depth, nodes[i]);
    SumReplace(nodes, i, nodes[i].(status := Running), WeightOf(D, B, counts, depth), WeightOf(D, B, counts, depth));
  }

  lemma RunningWeight(D: nat, B: nat, counts: map<string, nat>, depth: map<string, nat>, node: PlanNode)
    requires !IsTerminalStatus(node.status)
    ensures Weight(D, B, counts, depth, node.(status := Running)) == Weight(D, B, counts, depth, node)
  {
  }

  lemma FinishDrops(D: nat, B: nat, cfg: Config, s: State, id: string, o: Outcome)
    requires Inv(cfg, s) && Enabled(cfg, s, Finish(id, o)) && Shallow(D, B, cfg, s, Finish(id, o))
    ensures Potential(D, B, Next(cfg, s, Finish(id, o))) < Potential(D, B, s)
  {
    hide Inv, Potential, Next, Injects, Shallow;
    if Injects(cfg, s.counts, id, o) {
      InjectDrops(D, B, cfg, s, id, o);
    } else {
      SettleDrops(D, B, cfg, s, id, o);
    }
  }

  function PhaseRank(p: Phase): nat {
    match p
    case Finished => 0
    case AtHead => 1
    case InBatch => 2
  }

  function Measure(D: nat, B: nat, s: State): int {
    4 * Potential(D, B, s) - 2 * |s.pending| - 3 * |s.running| + PhaseRank(s.phase)
  }

  lemma MeasureNonNegative(D: nat, B: nat, cfg: Config, s: State)
    requires Inv(cfg, s)
    ensures Measure(D, B, s) >= 0
  {
    hide Inv, Potential;
    PotentialCoversBatch(D, B, cfg, s);
  }

  lemma DispatchCollects(cfg: Config, s: State)
    requires Enabled(cfg, s, Dispatch)
    ensures |Next(cfg, s, Dispatch).pending| >= 1
  {
    hide CollectRunnable;
  }

  lemma BatchIdle(cfg: Config, s: State)
    requires Inv(cfg, s) && s.phase != InBatch
    ensures s.pending == multiset{} && s.running == multiset{}
  {
  }

  /** Every step lowers the measure, so no run goes on forever. */
  lemma StepLowersMeasure(D: nat, B: nat, cfg: Config, s: State, e: Event)
    requires Inv(cfg, s) && Enabled(cfg, s, e) && Benign(cfg, s, e) && Shallow(D, B, cfg, s, e)
    ensures Measure(D, B, Next(cfg, s, e)) < Measure(D, B, s)
    ensures var s' := Next(cfg, s, e);
            Potential(D, B, s') - |s'.running| <= Potential(D, B, s) - |s.running| - (if e.Start? then 1 else 0)
  {
    hide Inv, WeightOf, Sum, CollectRunnable, StartNodes, CanStart, FinishNodes, FinishCounts, NextDepth,
         CountInFlight, DerivePlanStatus;
    match e
    case Dispatch => DispatchCollects(cfg, s); BatchIdle(cfg, s);
    case Start(id) => StartKeepsPotential(D, B, cfg, s, id);
    case Finish(id, o) =>
      FinishDrops(D, B, cfg, s, id, o);
      assert |s.running - multiset{id}| == |s.running| - 1;
    case Join =>
    case Wait => InFlightBounded(cfg, s);
    case Stop =>
  }

  ghost predicate AllShallow(D: nat, B: nat, cfg: Config, s: State, es: seq<Event>)
    decreases |es|
  {
    es == [] || (Shallow(D, B, cfg, s, es[0]) && AllShallow(D, B, cfg, Next(cfg, s, es[0]), es[1..]))
  }

  function TotalStarts(es: seq<Event>): nat {
    if es == [] then 0 else (if es[0].Start? then 1 else 0) + TotalStarts(es[1..])
  }

  lemma {:induction false} RunLowersMeasure(D: nat, B: nat, cfg: Config, s: State, es: seq<Event>)
    requires Inv(cfg, s) && Runs(cfg, s, es) && AllShallow(D, B, cfg, s, es)
    ensures |es| <= Measure(D, B, s)
    ensures TotalStarts(es) <= Potential(D, B, s) - |s.running|
    decreases |es|
  {
    hide Inv, Enabled, Benign, Shallow, Next, Measure, Potential;
    if es == [] {
      MeasureNonNegative(D, B, cfg, s);
      PotentialCoversBatch(D, B, cfg, s);
    } else {
      StepKeepsInv(cfg, s, es[0]);
      StepLowersMeasure(D, B, cfg, s, es[0]);
      RunLowersMeasure(D, B, cfg, Next(cfg, s, es[0]), es[1..]);
    }
  }

  /**
   A run whose injections nest at most D deep with at most B nodes each dispatches at most
   N * Budget(0) nodes in all, and takes at most four steps for each of them, plus one.
   */
  lemma RunLengthBounded(D: nat, B: nat, cfg: Config, plan: ExecutionPlan, counts: map<string, nat>, es: seq<Event>)
    requires Startable(plan.nodes)
    requires Runs(cfg, InitialState(plan, counts), es) && AllShallow(D, B, cfg, InitialState(plan, counts), es)
    ensures TotalStarts(es) <= |plan.nodes| * Budget(D, B, 0)
    ensures |es| <= 4 * (|plan.nodes| * Budget(D, B, 0)) + 1
  {
    hide Inv, Startable, Weight, Budget;
    var s := InitialState(plan, counts);
    InitialInv(cfg, plan, counts);
    RunLowersMeasure(D, B, cfg, s, es);
    forall i | 0 <= i < |plan.nodes| ensures WeightOf(D, B, s.counts, s.depth)(plan.nodes[i]) <= Budget(D, B, 0) {
      WeightBound(D, B, s.counts, s.depth, plan.nodes[i]);
    }
    SumBound(plan.nodes, WeightOf(D, B, s.counts, s.depth), Budget(D, B, 0));
  }
}
