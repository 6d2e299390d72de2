/** Whole runs of the executor, under every interleaving: safety, completion order, no deadlock. */
module ExecutorRuns {
  import opened Wrappers
  import opened Dag
  import opened Models
  import opened ExecutorModel
  import opened ExecutorSafety

  /** `es` is a run from `s`: each step enabled, each injected answer with distinct ids. */
  ghost predicate Runs(cfg: Config, s: State, es: seq<Event>)
    decreases |es|
  {
    es == [] || (Enabled(cfg, s, es[0]) && Benign(cfg, s, es[0]) && Runs(cfg, Next(cfg, s, es[0]), es[1..]))
  }

  function Final(cfg: Config, s: State, es: seq<Event>): State
    decreases |es|
  {
    if es == [] then s else Final(cfg, Next(cfg, s, es[0]), es[1..])
  }

  /** Every sub-DAG injected along the run is safe for the plan it lands in. */
  ghost predicate AllSafe(cfg: Config, s: State, es: seq<Event>)
    decreases |es|
  {
    es == [] || (Safe(cfg, s, es[0]) && AllSafe(cfg, Next(cfg, s, es[0]), es[1..]))
  }

  lemma {:induction false} RunsAppend(cfg: Config, s: State, es: seq<Event>, e: Event)
    requires Runs(cfg, s, es)
    requires Enabled(cfg, Final(cfg, s, es), e) && Benign(cfg, Final(cfg, s, es), e)
    ensures Runs(cfg, s, es + [e])
    ensures Final(cfg, s, es + [e]) == Next(cfg, Final(cfg, s, es), e)
    decreases |es|
  {
    hide Enabled, Benign, Next;
    if es == [] {
      assert ([] + [e])[1..] == [];
      assert Runs(cfg, Next(cfg, s, e), []);
    } else {
      RunsAppend(cfg, Next(cfg, s, es[0]), es[1..], e);
      assert (es + [e])[1..] == es[1..] + [e];
    }
  }

  /** Every reachable state satisfies the invariant. */
  lemma {:induction false} RunKeepsInv(cfg: Config, s: State, es: seq<Event>)
    requires Inv(cfg, s) && Runs(cfg, s, es)
    ensures Inv(cfg, Final(cfg, s, es))
    decreases |es|
  {
    hide Inv, Enabled, Benign, Next;
    if es != [] {
      StepKeepsInv(cfg, s, es[0]);
      RunKeepsInv(cfg, Next(cfg, s, es[0]), es[1..]);
    }
  }

  /** Along safe injections a closed and acyclic plan stays so. */
  lemma {:induction false} RunKeepsWellFormed(cfg: Config, s: State, es: seq<Event>)
    requires Inv(cfg, s) && Runs(cfg, s, es) && AllSafe(cfg, s, es) && WellFormed(s.plan.nodes)
    ensures WellFormed(Final(cfg, s, es).plan.nodes)
    decreases |es|
  {
    hide Inv, Enabled, Benign, Safe, Next, WellFormed;
    if es != [] {
      StepKeepsInv(cfg, s, es[0]);
      StepKeepsWellFormed(cfg, s, es[0]);
      RunKeepsWellFormed(cfg, Next(cfg, s, es[0]), es[1..]);
    }
  }

  // ---- no lost updates; settled nodes stay settled ----

  /** A task's step changes its own node and appends drafts; no other step changes any node. */
  lemma StepTouchesOnlyItsNode(cfg: Config, s: State, e: Event)
    requires Inv(cfg, s) && Enabled(cfg, s, e) && Benign(cfg, s, e)
    ensures e.Start? || e.Finish? ==>
      && OthersKept(View(s), View(Next(cfg, s, e)), e.id)
      && e.id in View(s) && View(s)[e.id].status in {Draft, Ready, Running}
    ensures !e.Start? && !e.Finish? ==> View(Next(cfg, s, e)) == View(s)
  {
    hide DistinctIds, CompletedClosed, OthersKept, NodeMap, StartNodes, FinishNodes, DependenciesMet;
    match e
    case Start(id) => StartMarksRunning(cfg, s, id);
    case Finish(id, o) => FinishKeepsInv(cfg, s, id, o);
    case _ =>
  }

  /** Once completed, failed, cancelled or waiting for a tool, a node never changes again. */
  lemma {:induction false} RunKeepsSettled(cfg: Config, s: State, es: seq<Event>, n: string)
    requires Inv(cfg, s) && Runs(cfg, s, es)
    requires n in View(s) && View(s)[n].status in {Completed, Failed, Cancelled, NeedsTool}
    ensures n in View(Final(cfg, s, es)) && View(Final(cfg, s, es))[n] == View(s)[n]
    decreases |es|
  {
    hide Inv, Enabled, Benign, Next, View;
    if es != [] {
      StepTouchesOnlyItsNode(cfg, s, es[0]);
      StepKeepsInv(cfg, s, es[0]);
      RunKeepsSettled(cfg, Next(cfg, s, es[0]), es[1..], n);
    }
  }

  /** How an outcome shows on its node: status, error, and a handler's result merged into the inputs. */
  ghost predicate Shows(cfg: Config, counts: map<string, nat>, before: PlanNode, o: Outcome, after: PlanNode) {
    && after.id == before.id && after.objective == before.objective && after.dependsOn == before.dependsOn
    && after.assignedClaw == before.assignedClaw
    && after.outputs == before.outputs && after.acceptance == before.acceptance
    && after.status in {Completed, Failed, NeedsTool}
    && (after.status == Completed <==> o.Returned?)
    && (after.status == NeedsTool <==> o.UnknownCapability? && cfg.hasScaffolder)
    && (o.Returned? ==> after.error == None)
    && (o.HandlerRaised? ==> after.error == Some(HandlerError(o.message)))
    && (o.UnknownCapability? && cfg.hasScaffolder ==>
      after.error == Some(MissingTool(if before.assignedClaw != "" then before.assignedClaw else before.id)))
    && (o.UnknownCapability? && !cfg.hasScaffolder ==> after.error == Some(UnknownCapabilityError(o.message)))
    && (o.DependencyMissing? && !cfg.hasPlanner ==> after.error == Some(NoSubdagPlanner))
    && (o.DependencyMissing? && cfg.hasPlanner && before.id in counts && counts[before.id] >= 3 ==>
      after.error == Some(InjectionLoopGuard))
    && (o.DependencyMissing? && cfg.hasPlanner && !(before.id in counts && counts[before.id] >= 3) ==>
      o.answer.PlannerRaises? && after.error == Some(SubdagPlannerError(o.answer.message)))
    && (forall k :: k in after.inputs <==> k in before.inputs || k in ResultOf(o))
    && (forall k :: k in after.inputs ==>
      after.inputs[k] == if k in ResultOf(o) then ResultOf(o)[k] else before.inputs[k])
  }

  function ResultOf(o: Outcome): map<string, string> {
    if o.Returned? && o.result.Some? then o.result.value else map[]
  }

  /** What an outcome without injection makes of its node is there when the run ends. */
  lemma OutcomeIsFinal(cfg: Config, s: State, id: string, o: Outcome, es: seq<Event>)
    requires Inv(cfg, s) && Enabled(cfg, s, Finish(id, o)) && !Injects(cfg, s.counts, id, o)
    requires Runs(cfg, Next(cfg, s, Finish(id, o)), es)
    ensures var s' := Final(cfg, Next(cfg, s, Finish(id, o)), es);
            id in View(s) && id in View(s') && Shows(cfg, s.counts, View(s)[id], o, View(s')[id])
  {
    hide DistinctIds, CompletedClosed, OthersKept, FinishNodes, NodeMap, DependenciesMet, Shows, PendingRunnable,
         NextDepth;
    FinishKeepsInv(cfg, s, id, o);
    FinishSettles(cfg, s, id, o);
    SettledShows(cfg, s.counts, View(s)[id], o);
    RunKeepsSettled(cfg, Next(cfg, s, Finish(id, o)), es, id);
  }

  lemma SettledShows(cfg: Config, counts: map<string, nat>, node: PlanNode, o: Outcome)
    requires !Injects(cfg, counts, node.id, o)
    ensures Shows(cfg, counts, node, o, SettledNode(cfg, counts, node, o))
  {
  }

  // ---- the order of completion ----

  /**
   `log` lists once each the nodes completed beyond `base`, each after all its dependencies;
   `base` and `log` together are exactly the completed nodes.
   */
  ghost predicate CompletionOrder(m: map<string, PlanNode>, base: set<string>, log: seq<string>) {
    && Distinct(log) && base !! Elems(log) && base <= m.Keys && Elems(log) <= m.Keys
    && (forall n :: n in m ==> (m[n].status == Completed <==> n in base + Elems(log)))
    && (forall i :: 0 <= i < |log| ==> Elems(m[log[i]].dependsOn) <= base + Elems(log[..i]))
  }

  lemma OthersKeepOrder(m: map<string, PlanNode>, m': map<string, PlanNode>, id: string, base: set<string>,
                        log: seq<string>)
    requires CompletionOrder(m, base, log) && OthersKept(m, m', id)
    requires id in m && m[id].status != Completed && m'[id].status != Completed
    ensures CompletionOrder(m', base, log)
  {
    forall i | 0 <= i < |log| ensures m'[log[i]] == m[log[i]] {
      assert log[i] in Elems(log);
    }
  }

  lemma CompletionExtendsOrder(m: map<string, PlanNode>, m': map<string, PlanNode>, id: string, base: set<string>,
                              log: seq<string>)
    requires CompletionOrder(m, base, log) && OthersKept(m, m', id)
    requires id in m && m[id].status != Completed && m'[id].status == Completed
    requires DependenciesMet(m'[id], m)
    ensures CompletionOrder(m', base, log + [id])
  {
    assert id !in base + Elems(log);
    assert Elems(log + [id]) == Elems(log) + {id};
    forall i | 0 <= i < |log + [id]|
      ensures Elems(m'[(log + [id])[i]].dependsOn) <= base + Elems((log + [id])[..i])
    {
      if i < |log| {
        assert log[i] in Elems(log);
        assert (log + [id])[..i] == log[..i];
        assert m'[log[i]] == m[log[i]];
      } else {
        assert (log + [id])[..i] == log;
        forall d | d in m'[id].dependsOn ensures d in base + Elems(log) {
        }
      }
    }
  }

  lemma ReturnedCompletes(cfg: Config, s: State, id: string, o: Outcome)
    requires Inv(cfg, s) && Enabled(cfg, s, Finish(id, o)) && o.Returned?
    ensures id in View(s) && View(s)[id].status == Running
    ensures OthersKept(View(s), View(Next(cfg, s, Finish(id, o))), id)
    ensures View(Next(cfg, s, Finish(id, o)))[id].status == Completed
    ensures DependenciesMet(View(Next(cfg, s, Finish(id, o)))[id], View(s))
  {
    hide DistinctIds, CompletedClosed, OthersKept, FinishNodes;
    FinishSettles(cfg, s, id, o);
  }

  lemma OtherwiseNotCompleted(cfg: Config, s: State, id: string, o: Outcome)
    requires Inv(cfg, s) && Enabled(cfg, s, Finish(id, o)) && Benign(cfg, s, Finish(id, o)) && !o.Returned?
    ensures id in View(s) && View(s)[id].status == Running
    ensures OthersKept(View(s), View(Next(cfg, s, Finish(id, o))), id)
    ensures View(Next(cfg, s, Finish(id, o)))[id].status != Completed
  {
    hide DistinctIds, CompletedClosed, OthersKept, FinishNodes, DependenciesMet;
    if Injects(cfg, s.counts, id, o) {
      FinishInjects(cfg, s, id, o);
    } else {
      FinishSettles(cfg, s, id, o);
    }
  }

  lemma StepKeepsOrder(cfg: Config, s: State, e: Event, base: set<string>)
    requires Inv(cfg, s) && Enabled(cfg, s, e) && Benign(cfg, s, e)
    requires CompletionOrder(View(s), base, s.log)
    ensures CompletionOrder(View(Next(cfg, s, e)), base, Next(cfg, s, e).log)
  {
    hide DistinctIds, CompletedClosed, OthersKept, NodeMap, StartNodes, FinishNodes, DependenciesMet,
         CompletionOrder, FinishCounts, NextDepth;
    var s' := Next(cfg, s, e);
    match e
    case Start(id) =>
      StartMarksRunning(cfg, s, id);
      OthersKeepOrder(View(s), View(s'), id, base, s.log);
    case Finish(id, o) =>
      if o.Returned? {
        ReturnedCompletes(cfg, s, id, o);
        CompletionExtendsOrder(View(s), View(s'), id, base, s.log);
      } else {
        OtherwiseNotCompleted(cfg, s, id, o);
        OthersKeepOrder(View(s), View(s'), id, base, s.log);
      }
    case _ =>
  }

  /** In every reachable state the completions are in dependency order, also after injections. */
  lemma {:induction false} RunKeepsOrder(cfg: Config, s: State, es: seq<Event>, base: set<string>)
    requires Inv(cfg, s) && Runs(cfg, s, es)
    requires CompletionOrder(View(s), base, s.log)
    ensures CompletionOrder(View(Final(cfg, s, es)), base, Final(cfg, s, es).log)
    decreases |es|
  {
    hide Inv, Enabled, Benign, Next, View, CompletionOrder;
    if es != [] {
      StepKeepsOrder(cfg, s, es[0], base);
      StepKeepsInv(cfg, s, es[0]);
      RunKeepsOrder(cfg, Next(cfg, s, es[0]), es[1..], base);
    }
  }

  // ---- concurrency bound; the waiting branch is dead ----

  ghost function RunningIds(nodes: seq<PlanNode>): set<string> {
    set i | 0 <= i < |nodes| && nodes[i].status == Running :: nodes[i].id
  }

  lemma {:induction false} CountIsSize(nodes: seq<PlanNode>)
    requires DistinctIds(nodes)
    ensures CountInFlight(nodes) == |RunningIds(nodes)|
  {
    if nodes != [] {
      var rest := nodes[1..];
      CountIsSize(rest);
      assert forall i :: 0 <= i < |rest| ==> rest[i] == nodes[i + 1];
      if nodes[0].status == Running {
        assert nodes[0].id !in RunningIds(rest);
        assert RunningIds(nodes) == RunningIds(rest) + {nodes[0].id} by {
          forall x | x in RunningIds(nodes) ensures x in RunningIds(rest) + {nodes[0].id} {
            var i :| 0 <= i < |nodes| && nodes[i].status == Running && nodes[i].id == x;
            if i > 0 { assert rest[i - 1].id == x; }
          }
        }
      } else {
        assert RunningIds(nodes) == RunningIds(rest) by {
          forall x | x in RunningIds(nodes) ensures x in RunningIds(rest) {
            var i :| 0 <= i < |nodes| && nodes[i].status == Running && nodes[i].id == x;
            assert rest[i - 1].id == x;
          }
        }
      }
    }
  }

  lemma RunningAreHeld(nodes: seq<PlanNode>, running: set<string>)
    requires DistinctIds(nodes) && RunningHeld(NodeMap(nodes), running)
    ensures RunningIds(nodes) == running
  {
    hide DependenciesMet;
    forall x ensures x in RunningIds(nodes) <==> x in running {
      if x in RunningIds(nodes) {
        var i :| 0 <= i < |nodes| && nodes[i].status == Running && nodes[i].id == x;
        NodeMapAt(nodes, i);
      }
      if x in running {
        var i :| 0 <= i < |nodes| && nodes[i] == NodeMap(nodes)[x];
      }
    }
  }

  function StatusList(nodes: seq<PlanNode>): seq<PlanStatus> {
    seq(|nodes|, i requires 0 <= i < |nodes| => nodes[i].status)
  }

  /** The count is the number of nodes marked running, ids repeated or not. */
  lemma {:induction false} CountsRunning(nodes: seq<PlanNode>)
    ensures CountInFlight(nodes) == multiset(StatusList(nodes))[Running]
  {
    if nodes != [] {
      CountsRunning(nodes[1..]);
      assert StatusList(nodes) == [nodes[0].status] + StatusList(nodes[1..]);
    }
  }

  /** The nodes marked running are the semaphore holders: at most `maxConcurrency`, none between batches. */
  lemma InFlightBounded(cfg: Config, s: State)
    requires Inv(cfg, s)
    ensures CountInFlight(s.plan.nodes) == |s.running| <= cfg.maxConcurrency
    ensures s.phase != InBatch ==> CountInFlight(s.plan.nodes) == 0
    ensures !Enabled(cfg, s, Wait)
  {
    hide CompletedClosed, RunningHeld, PendingRunnable, CollectRunnable;
    CountIsSize(s.plan.nodes);
    RunningAreHeld(s.plan.nodes, Members(s.running));
    OnceSize(s.running);
  }
}
