/**
 Runs without any assumption on injected answers. Where ids repeat, lookup by id finds the last node
 of an id, and a runnable node in front of a settled one is dispatched in vain for ever. That is the
 only way for a run with bounded nesting to go on for ever.
 */
module RepeatedIds {
  import opened Wrappers
  import opened Models
  import opened Injection
  import opened InjectionTheorems
  import opened ExecutorModel
  import opened ExecutorRuns

  /** `es` is any sequence of enabled steps from `s`. */
  ghost predicate Steps(cfg: Config, s: State, es: seq<Event>)
    decreases |es|
  {
    es == [] || (Enabled(cfg, s, es[0]) && Steps(cfg, Next(cfg, s, es[0]), es[1..]))
  }

  // ---- what a task's step leaves alone ----

  /** Nodes of other ids are unchanged, in the list and in the table. */
  ghost predicate Apart(nodes: seq<PlanNode>, nodes': seq<PlanNode>, id: string) {
    && |nodes| <= |nodes'|
    && (forall i :: 0 <= i < |nodes| ==> nodes'[i].id == nodes[i].id && (nodes[i].id != id ==> nodes'[i] == nodes[i]))
    && (forall n :: n in NodeMap(nodes) && n != id ==> n in NodeMap(nodes') && NodeMap(nodes')[n] == NodeMap(nodes)[n])
  }

  lemma SetApart(nodes: seq<PlanNode>, node: PlanNode)
    requires node.id in Ids(nodes)
    ensures Apart(nodes, SetNode(nodes, node), node.id)
  {
    hide NodeMap, Ids;
    SetNodeMap(nodes, node);
  }

  lemma AppendApart(nodes: seq<PlanNode>, nodes': seq<PlanNode>, extra: seq<PlanNode>, id: string)
    requires Apart(nodes, nodes', id) && Ids(extra) !! Ids(nodes)
    ensures Apart(nodes, nodes' + extra, id)
  {
    hide NodeMap, Ids;
    AppendMap(nodes', extra);
    assert forall n :: n in NodeMap(nodes) ==> n !in NodeMap(extra);
  }

  lemma SameApart(nodes: seq<PlanNode>, id: string)
    ensures Apart(nodes, nodes, id)
  {
  }

  lemma StartApart(nodes: seq<PlanNode>, id: string)
    ensures Apart(nodes, StartNodes(nodes, id), id)
  {
    hide Apart, NodeMap, SetNode, Ids;
    SameApart(nodes, id);
    if CanStart(nodes, id) {
      SetApart(nodes, nodes[FindIndex(nodes, id).value].(status := Running));
    }
  }

  lemma InjectApart(nodes: seq<PlanNode>, id: string, subs: seq<PlanNode>)
    ensures Apart(nodes, Inject(nodes, id, subs), id)
  {
    hide Apart, NodeMap, SetNode, Ids, Remapped, TerminalIds, AllDeps, AddDeps;
    SameApart(nodes, id);
    var orig := FindIndex(nodes, id);
    var injected := Remapped(Ids(nodes), id, subs);
    RemappedIds(Ids(nodes), id, subs);
    if orig.Some? {
      SetApart(nodes, ResetNode(nodes[orig.value]));
      var rewired := Rewired(nodes[orig.value], TerminalIds(injected, AllDeps(injected)));
      SetApart(nodes, rewired);
      AppendApart(nodes, SetNode(nodes, rewired), injected, id);
    } else {
      AppendApart(nodes, nodes, injected, id);
    }
  }

  lemma FinishApart(cfg: Config, nodes: seq<PlanNode>, counts: map<string, nat>, id: string, o: Outcome)
    ensures Apart(nodes, FinishNodes(cfg, nodes, counts, id, o), id)
  {
    hide Apart, NodeMap, SetNode, Ids, Inject, SettledNode;
    if Injects(cfg, counts, id, o) {
      InjectApart(nodes, id, o.answer.subs);
    } else {
      SameApart(nodes, id);
      var i := FindIndex(nodes, id);
      if i.Some? {
        SetApart(nodes, SettledNode(cfg, counts, nodes[i.value], o));
      }
    }
  }

  // ---- a shadowed node keeps every run from ending ----

  /** The i-th node is runnable, but its id finds a settled node. */
  predicate Shadowed(nodes: seq<PlanNode>, i: nat) {
    && i < |nodes| && IsRunnable(nodes[i], NodeMap(nodes))
    && nodes[i].id in NodeMap(nodes) && IsTerminalStatus(NodeMap(nodes)[nodes[i].id].status)
  }

  /** No task runs for a shadowed node or for its dependencies, and the run has not ended. */
  ghost predicate Trapped(s: State, i: nat) {
    && Shadowed(s.plan.nodes, i)
    && s.plan.nodes[i].id !in s.running && (forall d :: d in s.plan.nodes[i].dependsOn ==> d !in s.running)
    && s.phase != Finished && s.plan.status == Running
  }

  lemma ApartKeepsShadow(nodes: seq<PlanNode>, nodes': seq<PlanNode>, id: string, i: nat)
    requires Apart(nodes, nodes', id) && Shadowed(nodes, i)
    requires id != nodes[i].id && id !in nodes[i].dependsOn
    ensures Shadowed(nodes', i) && nodes'[i] == nodes[i]
  {
    hide NodeMap;
  }

  lemma CannotStart(nodes: seq<PlanNode>, i: nat, id: string)
    requires Shadowed(nodes, i) && (id == nodes[i].id || id in nodes[i].dependsOn)
    ensures !CanStart(nodes, id)
  {
    hide NodeMap;
  }

  lemma ShadowIsCollected(nodes: seq<PlanNode>, i: nat)
    requires Shadowed(nodes, i)
    ensures CollectRunnable(nodes) != []
  {
    hide NodeMap, IsRunnable;
    assert nodes[i] in CollectRunnable(nodes);
  }

  /** Whatever step comes next, the trap stays, and leaving the loop is not possible. */
  lemma StepKeepsTrapped(cfg: Config, s: State, i: nat, e: Event)
    requires Trapped(s, i) && Enabled(cfg, s, e)
    ensures Trapped(Next(cfg, s, e), i)
  {
    hide Shadowed, Apart, FinishNodes, FinishCounts, NextDepth, CollectRunnable, DerivePlanStatus, CountInFlight;
    var nodes := s.plan.nodes;
    assert i < |nodes| by { ShadowPlace(nodes, i); }
    match e
    case Start(id) =>
      StartApart(nodes, id);
      if CanStart(nodes, id) {
        if id == nodes[i].id || id in nodes[i].dependsOn {
          CannotStart(nodes, i, id);
        } else {
          ApartKeepsShadow(nodes, StartNodes(nodes, id), id, i);
        }
      }
    case Finish(id, o) =>
      FinishApart(cfg, nodes, s.counts, id, o);
      ApartKeepsShadow(nodes, FinishNodes(cfg, nodes, s.counts, id, o), id, i);
    case Stop => ShadowIsCollected(nodes, i);
    case _ =>
  }

  lemma ShadowPlace(nodes: seq<PlanNode>, i: nat)
    requires Shadowed(nodes, i)
    ensures i < |nodes|
  {
  }

  /** From a trapped state no run ends, whatever the handlers and the planner answer. */
  lemma {:induction false} TrappedNeverEnds(cfg: Config, s: State, i: nat, es: seq<Event>)
    requires Trapped(s, i) && Steps(cfg, s, es)
    ensures Trapped(Final(cfg, s, es), i) && Final(cfg, s, es).phase != Finished
    decreases |es|
  {
    hide Enabled, Next, Shadowed;
    if es != [] {
      StepKeepsTrapped(cfg, s, i, es[0]);
      TrappedNeverEnds(cfg, Next(cfg, s, es[0]), i, es[1..]);
    }
  }

  lemma TrappedGoesOn(cfg: Config, s: State, i: nat) returns (e: Event)
    requires Trapped(s, i) && cfg.maxConcurrency > 0
    ensures Enabled(cfg, s, e)
  {
    if s.phase == AtHead {
      e := Dispatch;
      ShadowIsCollected(s.plan.nodes, i);
    } else if s.running != multiset{} {
      var n :| n in s.running;
      e := Finish(n, Returned(None));
    } else if s.pending != multiset{} {
      var n :| n in s.pending;
      e := Start(n);
    } else {
      e := Join;
    }
  }

  /** And it can always go on: runs of every length exist. */
  lemma {:induction false} TrappedRunsOn(cfg: Config, s: State, i: nat, n: nat) returns (es: seq<Event>)
    requires Trapped(s, i) && cfg.maxConcurrency > 0
    ensures Steps(cfg, s, es) && |es| == n
    decreases n
  {
    es := [];
    if n > 0 {
      hide Trapped, Enabled, Next;
      var e := TrappedGoesOn(cfg, s, i);
      StepKeepsTrapped(cfg, s, i, e);
      var rest := TrappedRunsOn(cfg, Next(cfg, s, e), i, n - 1);
      es := [e] + rest;
      assert es[1..] == rest;
    }
  }

  /** With distinct ids nothing is shadowed. */
  lemma DistinctNotShadowed(nodes: seq<PlanNode>, i: nat)
    requires DistinctIds(nodes)
    ensures !Shadowed(nodes, i)
  {
    if i < |nodes| {
      NodeMapAt(nodes, i);
    }
  }
}
