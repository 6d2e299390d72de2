/** A node that asked for prerequisites is not dispatched again before all of them have completed. */
module Rescheduling {
  import opened Dag
  import opened Models
  import opened Injection
  import opened InjectionTheorems
  import opened ExecutorModel
  import opened ExecutorSafety
  import opened ExecutorRuns

  /** Nodes stay, and dependencies are only added. */
  ghost predicate Grows(m: map<string, PlanNode>, m': map<string, PlanNode>) {
    forall n :: n in m ==> n in m' && Elems(m[n].dependsOn) <= Elems(m'[n].dependsOn)
  }

  lemma OneGrows(m: map<string, PlanNode>, m': map<string, PlanNode>, id: string)
    requires OthersKept(m, m', id)
    requires id in m && id in m' && Elems(m[id].dependsOn) <= Elems(m'[id].dependsOn)
    ensures Grows(m, m')
  {
  }

  lemma StepGrows(cfg: Config, s: State, e: Event)
    requires Inv(cfg, s) && Enabled(cfg, s, e) && Benign(cfg, s, e)
    ensures Grows(View(s), View(Next(cfg, s, e)))
  {
    hide DistinctIds, CompletedClosed, OthersKept, NodeMap, StartNodes, FinishNodes, DependenciesMet, Grows,
         PlanGraph, PendingRunnable, NextDepth, FinishCounts, Elems;
    var s' := Next(cfg, s, e);
    match e
    case Start(id) =>
      StartMarksRunning(cfg, s, id);
      OneGrows(View(s), View(s'), id);
    case Finish(id, o) =>
      if Injects(cfg, s.counts, id, o) {
        FinishInjects(cfg, s, id, o);
        OwnKept(View(s), View(s'), id);
      } else {
        FinishSettles(cfg, s, id, o);
      }
      OneGrows(View(s), View(s'), id);
    case _ => SameGrows(View(s));
  }

  lemma OwnKept(m: map<string, PlanNode>, m': map<string, PlanNode>, id: string)
    requires OthersKept(m, m', id) && id in m
    ensures id in m'
  {
  }

  lemma SameGrows(m: map<string, PlanNode>)
    ensures Grows(m, m)
  {
  }

  lemma {:induction false} RunGrows(cfg: Config, s: State, es: seq<Event>)
    requires Inv(cfg, s) && Runs(cfg, s, es)
    ensures Grows(View(s), View(Final(cfg, s, es)))
    decreases |es|
  {
    hide Inv, Enabled, Benign, Next, View;
    if es != [] {
      StepGrows(cfg, s, es[0]);
      StepKeepsInv(cfg, s, es[0]);
      RunGrows(cfg, Next(cfg, s, es[0]), es[1..]);
    }
  }

  // ---- along a dependency path behind a started node, everything completed ----

  lemma {:induction false} CompletedAlongPath(m: map<string, PlanNode>, p: seq<string>)
    requires CompletedClosed(m) && IsPath(GraphOf(m), p) && |p| > 1
    requires p[0] in m && DependenciesMet(m[p[0]], m)
    ensures p[|p| - 1] in m && m[p[|p| - 1]].status == Completed
  {
    assert p[1] in m[p[0]].dependsOn;
    if |p| > 2 {
      CompletedAlongPath(m, p[1..]);
    }
  }

  lemma CompletedBehind(m: map<string, PlanNode>, a: string, n: string)
    requires CompletedClosed(m) && DependsOn(GraphOf(m), a, n) && a in m && DependenciesMet(m[a], m)
    ensures n in m && m[n].status == Completed
  {
    var p :| Connects(GraphOf(m), p, a, n) && |p| > 1;
    CompletedAlongPath(m, p);
  }

  lemma DependsGrows(m: map<string, PlanNode>, m': map<string, PlanNode>, a: string, n: string)
    requires Grows(m, m') && DependsOn(GraphOf(m), a, n)
    ensures DependsOn(GraphOf(m'), a, n)
  {
    var p :| Connects(GraphOf(m), p, a, n) && |p| > 1;
    PathMonotone(GraphOf(m), GraphOf(m'), p);
    assert Connects(GraphOf(m'), p, a, n);
  }

  // ---- the originator ----

  /** The node is dispatched, running or completed. */
  predicate Rescheduled(s: State, id: string) {
    id in s.pending || id in s.running || (id in View(s) && View(s)[id].status == Completed)
  }

  lemma RescheduledIsMet(cfg: Config, s: State, id: string)
    requires Inv(cfg, s) && Rescheduled(s, id)
    ensures id in View(s) && DependenciesMet(View(s)[id], View(s)) && CompletedClosed(View(s))
  {
    hide DistinctIds, DependenciesMet, NodeMap, Once;
  }

  lemma RunningListed(cfg: Config, s: State, id: string)
    requires Inv(cfg, s) && id in s.running
    ensures DistinctIds(s.plan.nodes) && id in Ids(s.plan.nodes)
  {
    hide DistinctIds, CompletedClosed, PendingRunnable, DependenciesMet, Once, NodeMap;
    RunningMember(s.running, id);
  }

  lemma AfterInjecting(cfg: Config, s: State, id: string, subs: seq<PlanNode>)
    requires Injects(cfg, s.counts, id, DependencyMissing(Planned(subs)))
    ensures Next(cfg, s, Finish(id, DependencyMissing(Planned(subs)))).plan.nodes == Inject(s.plan.nodes, id, subs)
  {
    hide Inject, NextDepth;
  }

  lemma InjectedWait(cfg: Config, s: State, id: string, subs: seq<PlanNode>, n: string)
    requires Inv(cfg, s) && id in s.running && Injects(cfg, s.counts, id, DependencyMissing(Planned(subs)))
    requires subs != [] && DistinctIds(subs) && Acyclic(InjectedGraph(s.plan.nodes, id, subs))
    requires n in Ids(Remapped(Ids(s.plan.nodes), id, subs))
    ensures DependsOn(GraphOf(View(Next(cfg, s, Finish(id, DependencyMissing(Planned(subs)))))), id, n)
  {
    RunningListed(cfg, s, id);
    AfterInjecting(cfg, s, id, subs);
    hide Inv, DistinctIds, Inject, Remapped, InjectedGraph, NodeMap, GraphOf, Acyclic, Ids, Next, Injects, DependsOn;
    OriginatorWaitsForAll(s.plan.nodes, id, subs, n);
  }

  /**
   After a handler reported missing prerequisites and a sub-DAG without a cycle was injected, whenever
   along any run its node is dispatched again, runs again or is completed, every injected node is COMPLETED.
   */
  lemma RescheduledAfterAll(cfg: Config, s: State, id: string, subs: seq<PlanNode>, es: seq<Event>, n: string)
    requires var o := DependencyMissing(Planned(subs));
             && Inv(cfg, s) && Enabled(cfg, s, Finish(id, o)) && Injects(cfg, s.counts, id, o)
             && Runs(cfg, Next(cfg, s, Finish(id, o)), es)
    requires subs != [] && DistinctIds(subs) && Acyclic(InjectedGraph(s.plan.nodes, id, subs))
    requires n in Ids(Remapped(Ids(s.plan.nodes), id, subs))
    ensures var f := Final(cfg, Next(cfg, s, Finish(id, DependencyMissing(Planned(subs)))), es);
            Rescheduled(f, id) ==> n in View(f) && View(f)[n].status == Completed
  {
    InjectedWait(cfg, s, id, subs, n);
    hide Inv, Enabled, Injects, Next, View, Remapped, InjectedGraph, Acyclic, Rescheduled, DependsOn;
    var s' := Next(cfg, s, Finish(id, DependencyMissing(Planned(subs))));
    var f := Final(cfg, s', es);
    StepKeepsInv(cfg, s, Finish(id, DependencyMissing(Planned(subs))));
    RunKeepsInv(cfg, s', es);
    RunGrows(cfg, s', es);
    DependsGrows(View(s'), View(f), id, n);
    if Rescheduled(f, id) {
      RescheduledIsMet(cfg, f, id);
      CompletedBehind(View(f), id, n);
    }
  }
}
