/** What an injection makes of each node, field by field, without the functions that compute it. */
module InjectionContracts {
  import opened Wrappers
  import opened Dag
  import opened Text
  import opened Models
  import opened Injection
  import opened InjectionTheorems

  // ---- the injected nodes ----

  /** The i-th injected node is the i-th sub-node, unstarted, with dependencies on sub-nodes renamed like these. */
  ghost predicate CopiesSub(after: seq<PlanNode>, n: nat, subs: seq<PlanNode>, i: nat)
    requires i < |subs| && |after| == n + |subs|
  {
    var copy, sub := after[n + i], subs[i];
    && copy.objective == sub.objective && copy.assignedClaw == sub.assignedClaw && copy.inputs == sub.inputs
    && copy.outputs == sub.outputs && copy.acceptance == sub.acceptance
    && copy.status == Draft && copy.error == None
    && |copy.dependsOn| == |sub.dependsOn|
    && (forall k :: 0 <= k < |sub.dependsOn| && sub.dependsOn[k] !in Ids(subs) ==>
         copy.dependsOn[k] == sub.dependsOn[k])
    && (forall k, j :: 0 <= k < |sub.dependsOn| && 0 <= j < |subs| && subs[j].id == sub.dependsOn[k] ==>
         copy.dependsOn[k] == after[n + j].id)
  }

  lemma InjectLength(nodes: seq<PlanNode>, origId: string, subs: seq<PlanNode>)
    ensures |Inject(nodes, origId, subs)| == |nodes| + |subs|
    ensures Inject(nodes, origId, subs)[|nodes|..] == Remapped(Ids(nodes), origId, subs)
  {
    hide SetNode, FindIndex, Remapped, TerminalIds, AllDeps, Rewired;
    assert subs == [] ==> Remapped(Ids(nodes), origId, subs) == [];
  }

  lemma InjectKeepsPayload(nodes: seq<PlanNode>, origId: string, subs: seq<PlanNode>, i: nat)
    requires i < |subs|
    ensures |Inject(nodes, origId, subs)| == |nodes| + |subs|
    ensures CopiesSub(Inject(nodes, origId, subs), |nodes|, subs, i)
  {
    var after, r := Inject(nodes, origId, subs), Remapped(Ids(nodes), origId, subs);
    InjectLength(nodes, origId, subs);
    hide Inject, FreshIds, IdMap;
    assert forall j :: 0 <= j < |subs| ==> after[|nodes| + j] == after[|nodes|..][j] == r[j];
    forall k, j | 0 <= k < |subs[i].dependsOn| && 0 <= j < |subs| && subs[j].id == subs[i].dependsOn[k]
      ensures r[i].dependsOn[k] == r[j].id
    {
      RemappedIdAt(Ids(nodes), origId, subs, j);
    }
  }

  /** The form of a generated id, and that it carries the least number that makes it new. */
  ghost predicate NamedFresh(base: string, taken: set<string>, id: string) {
    exists suffix: nat ::
      && id == Numbered(base, suffix) && id !in taken
      && forall t: nat :: t < suffix ==> Numbered(base, t) in taken
  }

  function Numbered(base: string, suffix: nat): string {
    if suffix == 0 then base else base + "-" + Decimal(suffix)
  }

  ghost function IdsBefore(after: seq<PlanNode>, n: nat): set<string>
    requires n <= |after|
  {
    Ids(after[..n])
  }

  lemma {:induction false} FreshIdsNamed(existing: set<string>, origId: string, count: nat, i: nat)
    requires i < count
    ensures var ids := FreshIds(existing, origId, count);
            NamedFresh("injected-" + origId + "-" + Decimal(i), existing + Elems(ids[..i]), ids[i])
    decreases count
  {
    hide FreshFrom, Decimal;
    var before := FreshIds(existing, origId, count - 1);
    var ids := FreshIds(existing, origId, count);
    assert ids[..count - 1] == before;
    if i < count - 1 {
      FreshIdsNamed(existing, origId, count - 1, i);
      assert ids[..i] == before[..i] && ids[i] == before[i];
    } else {
      FreshIsNamed(existing + Elems(before), BaseId(origId, i));
    }
  }

  lemma FreshIsNamed(taken: set<string>, base: string)
    ensures NamedFresh(base, taken, FreshId(taken, base))
  {
    hide Decimal;
    var suffix := FreshFrom(taken, base, 0);
    forall t: nat | t < suffix ensures Numbered(base, t) in taken {
      assert Candidate(base, t) in taken;
    }
    assert FreshId(taken, base) == Numbered(base, suffix);
  }

  /** Injected ids are injected-<originator>-<place>, numbered only as far as the ids before them require. */
  lemma InjectNamesFresh(nodes: seq<PlanNode>, origId: string, subs: seq<PlanNode>, i: nat)
    requires i < |subs| && DistinctIds(subs)
    ensures |Inject(nodes, origId, subs)| == |nodes| + |subs|
    ensures var after := Inject(nodes, origId, subs);
            NamedFresh("injected-" + origId + "-" + Decimal(i), IdsBefore(after, |nodes| + i), after[|nodes| + i].id)
  {
    var after, r := Inject(nodes, origId, subs), Remapped(Ids(nodes), origId, subs);
    var ids := FreshIds(Ids(nodes), origId, |subs|);
    InjectLength(nodes, origId, subs);
    InjectKeepsIds(nodes, origId, subs);
    FreshIdsNamed(Ids(nodes), origId, |subs|, i);
    hide Inject, FreshIds, IdMap, NamedFresh, Ids, Remapped, Decimal;
    forall j | 0 <= j < |subs| ensures after[|nodes| + j].id == ids[j] {
      assert after[|nodes| + j] == after[|nodes|..][j];
      RemappedIdAt(Ids(nodes), origId, subs, j);
    }
    BeforeIds(nodes, after, ids, i);
  }

  lemma BeforeIds(nodes: seq<PlanNode>, after: seq<PlanNode>, ids: seq<string>, i: nat)
    requires |nodes| + |ids| == |after| && i <= |ids|
    requires Ids(after[..|nodes|]) == Ids(nodes)
    requires forall j :: 0 <= j < |ids| ==> after[|nodes| + j].id == ids[j]
    ensures IdsBefore(after, |nodes| + i) == Ids(nodes) + Elems(ids[..i])
  {
    var part := after[|nodes|..|nodes| + i];
    assert after[..|nodes| + i] == after[..|nodes|] + part;
    IdsAppend(after[..|nodes|], part);
    assert IdList(part) == ids[..i];
  }

  lemma InjectKeepsIds(nodes: seq<PlanNode>, origId: string, subs: seq<PlanNode>)
    requires |Inject(nodes, origId, subs)| == |nodes| + |subs|
    ensures Ids(Inject(nodes, origId, subs)[..|nodes|]) == Ids(nodes)
  {
    hide SetNode, FindIndex, Remapped, TerminalIds, AllDeps, Rewired, Ids;
    var after := Inject(nodes, origId, subs);
    var orig := FindIndex(nodes, origId);
    if subs == [] {
      assert after[..|nodes|] == after;
    } else if orig.None? {
      assert after[..|nodes|] == nodes;
    } else {
      var injected := Remapped(Ids(nodes), origId, subs);
      var set' := SetNode(nodes, Rewired(nodes[orig.value], TerminalIds(injected, AllDeps(injected))));
      assert after[..|nodes|] == set';
    }
  }

  // ---- the originator ----

  lemma {:induction false} AddedOnce(deps: seq<string>, more: seq<string>)
    ensures var added := AddDeps(deps, more)[|deps|..];
            Distinct(added) && forall t :: t in added <==> t in more && t !in deps
    decreases |more|
  {
    if more != [] {
      var m, rest := more[0], more[1..];
      assert more == [m] + rest;
      if m in deps {
        AddedOnce(deps, rest);
      } else {
        AddedOnce(deps + [m], rest);
        hide AddDeps, Elems;
        PrependFresh(m, AddDeps(deps + [m], rest)[|deps| + 1..]);
        AddOneMore(deps, more);
      }
    }
  }

  lemma AddOneMore(deps: seq<string>, more: seq<string>)
    requires more != [] && more[0] !in deps
    ensures AddDeps(deps, more)[|deps|..] == [more[0]] + AddDeps(deps + [more[0]], more[1..])[|deps| + 1..]
  {
    hide Elems;
    SplitPrefix(deps, more[0], AddDeps(deps + [more[0]], more[1..]));
  }

  lemma SplitPrefix(deps: seq<string>, m: string, r: seq<string>)
    requires deps + [m] <= r
    ensures r[|deps|..] == [m] + r[|deps| + 1..]
  {
    assert r[|deps|] == (deps + [m])[|deps|];
  }

  lemma PrependFresh(m: string, added: seq<string>)
    requires m !in added && Distinct(added)
    ensures Distinct([m] + added)
  {
  }

  lemma {:induction false} AddedInOrder(deps: seq<string>, more: seq<string>)
    requires Distinct(more)
    ensures InOrder(AddDeps(deps, more)[|deps|..], more)
    decreases |more|
  {
    if more != [] {
      var m, rest := more[0], more[1..];
      if m in deps {
        AddedOnce(deps, rest);
        AddedInOrder(deps, rest);
        assert AddDeps(deps, more) == AddDeps(deps, rest);
        hide AddDeps, Elems, InOrder, Distinct;
        SkipOne(AddDeps(deps, rest)[|deps|..], more);
      } else {
        AddedOnce(deps + [m], rest);
        AddedInOrder(deps + [m], rest);
        AddOneMore(deps, more);
        hide AddDeps, Elems, InOrder, Distinct;
        TakeOne(AddDeps(deps + [m], rest)[|deps| + 1..], more);
      }
    }
  }

  lemma SkipOne(added: seq<string>, more: seq<string>)
    requires more != [] && Distinct(more) && InOrder(added, more[1..]) && more[0] !in added
    ensures InOrder(added, more)
  {
    assert forall a :: 0 < a < |more| ==> more[a] == more[1..][a - 1];
  }

  lemma TakeOne(added: seq<string>, more: seq<string>)
    requires more != [] && Distinct(more) && InOrder(added, more[1..]) && more[0] !in added
    ensures InOrder([more[0]] + added, more)
  {
    SkipOne(added, more);
    assert forall i :: 0 < i < |[more[0]] + added| ==> ([more[0]] + added)[i] == added[i - 1];
  }

  lemma {:induction false} TerminalsInOrder(nodes: seq<PlanNode>, deps: set<string>)
    requires DistinctIds(nodes)
    ensures Distinct(TerminalIds(nodes, deps)) && InOrder(TerminalIds(nodes, deps), IdList(nodes))
  {
    if nodes != [] {
      var k := |nodes| - 1;
      var before, ids := TerminalIds(nodes[..k], deps), IdList(nodes[..k]);
      TerminalsInOrder(nodes[..k], deps);
      assert IdList(nodes) == ids + [nodes[k].id];
      assert nodes[k].id !in ids;
      assert TerminalIds(nodes, deps) == before + (if nodes[k].id !in deps then [nodes[k].id] else []);
      assert forall t :: t in before ==> t in Elems(ids);
      hide TerminalIds, IdList, Ids, DistinctIds;
      ListsOneMore(before, ids, nodes[k].id);
    }
  }

  lemma ListsOneMore(r: seq<string>, order: seq<string>, last: string)
    requires Distinct(r) && InOrder(r, order) && last !in order && forall t :: t in r ==> t in order
    ensures Distinct(r + [last])
    ensures InOrder(r, order + [last]) && InOrder(r + [last], order + [last])
  {
    assert forall i :: 0 <= i < |r| ==> r[i] in order;
  }

  lemma InOrderTrans(a: seq<string>, b: seq<string>, c: seq<string>)
    requires InOrder(a, b) && InOrder(b, c) && forall t :: t in a ==> t in b
    ensures InOrder(a, c)
  {
    forall i, j, p, q | 0 <= i < j < |a| && 0 <= p < |c| && 0 <= q < |c| && a[i] == c[p] && a[j] == c[q] ensures p < q {
      assert a[i] in b && a[j] in b;
      var x :| 0 <= x < |b| && b[x] == a[i];
      var y :| 0 <= y < |b| && b[y] == a[j];
    }
  }

  /** `more` lists once each, in order, the ids of `injected` not in `deps` that none of `injected` depends on. */
  ghost predicate ListsTerminals(more: seq<string>, deps: seq<string>, injected: seq<PlanNode>) {
    && Distinct(more)
    && (forall t :: t in more <==>
         && t !in deps
         && (exists j :: 0 <= j < |injected| && injected[j].id == t)
         && forall j :: 0 <= j < |injected| ==> t !in injected[j].dependsOn)
    && (DistinctIds(injected) ==> InOrder(more, IdList(injected)))
  }

  /** The k-th node is reset and waits for the injected terminals too; the other nodes of the plan stay. */
  ghost predicate ResetsAt(nodes: seq<PlanNode>, after: seq<PlanNode>, k: nat)
    requires k < |nodes| <= |after|
  {
    var deps, deps' := nodes[k].dependsOn, after[k].dependsOn;
    && (forall j :: 0 <= j < |nodes| && j != k ==> after[j] == nodes[j])
    && after[k] == nodes[k].(status := Draft, error := None, dependsOn := deps')
    && deps <= deps'
    && ListsTerminals(deps'[|deps|..], deps, after[|nodes|..])
  }

  lemma AddedTerminals(deps: seq<string>, injected: seq<PlanNode>)
    ensures ListsTerminals(AddDeps(deps, TerminalIds(injected, AllDeps(injected)))[|deps|..], deps, injected)
  {
    hide TerminalIds, AllDeps, Ids, Elems, InOrder, DistinctIds, AddDeps;
    var terminals := TerminalIds(injected, AllDeps(injected));
    var more := AddDeps(deps, terminals)[|deps|..];
    AddedOnce(deps, terminals);
    if DistinctIds(injected) {
      TerminalsKeptInOrder(deps, injected);
    }
    assert forall t :: t in more <==> t in terminals && t !in deps;
    TerminalIffUnused(injected);
  }

  lemma TerminalsKeptInOrder(deps: seq<string>, injected: seq<PlanNode>)
    requires DistinctIds(injected)
    ensures InOrder(AddDeps(deps, TerminalIds(injected, AllDeps(injected)))[|deps|..], IdList(injected))
  {
    var terminals := TerminalIds(injected, AllDeps(injected));
    hide TerminalIds, AllDeps, Ids, Elems, InOrder, Distinct, DistinctIds;
    TerminalsInOrder(injected, AllDeps(injected));
    AddedOnce(deps, terminals);
    AddedInOrder(deps, terminals);
    hide AddDeps;
    InOrderTrans(AddDeps(deps, terminals)[|deps|..], terminals, IdList(injected));
  }

  lemma TerminalIffUnused(injected: seq<PlanNode>)
    ensures forall t :: t in TerminalIds(injected, AllDeps(injected)) <==>
                        && (exists j :: 0 <= j < |injected| && injected[j].id == t)
                        && forall j :: 0 <= j < |injected| ==> t !in injected[j].dependsOn
  {
    hide TerminalIds;
  }

  lemma InjectSets(nodes: seq<PlanNode>, origId: string, subs: seq<PlanNode>)
    requires origId in Ids(nodes)
    ensures var k, r := FindIndex(nodes, origId).value, Remapped(Ids(nodes), origId, subs);
            Inject(nodes, origId, subs) == nodes[k := Rewired(nodes[k], TerminalIds(r, AllDeps(r)))] + r
  {
    hide Remapped, FindIndex, Ids, NodeMap;
    if subs == [] {
      var r := Remapped(Ids(nodes), origId, subs);
      assert r == [] && TerminalIds(r, AllDeps(r)) == [];
    }
  }

  /** The last node of the originator's id is the one reset. */
  lemma InjectResetsOriginator(nodes: seq<PlanNode>, origId: string, subs: seq<PlanNode>)
    requires origId in Ids(nodes)
    ensures |Inject(nodes, origId, subs)| == |nodes| + |subs|
    ensures exists k :: 0 <= k < |nodes| && nodes[k].id == origId && IsLast(nodes, k)
                        && ResetsAt(nodes, Inject(nodes, origId, subs), k)
  {
    var after, r := Inject(nodes, origId, subs), Remapped(Ids(nodes), origId, subs);
    FoundIsLast(nodes, origId);
    InjectSets(nodes, origId, subs);
    var k := FindIndex(nodes, origId).value;
    AddedTerminals(nodes[k].dependsOn, r);
    var node := Rewired(nodes[k], TerminalIds(r, AllDeps(r)));
    assert nodes[k].dependsOn <= node.dependsOn;
    hide FindIndex, Inject, Remapped, TerminalIds, AllDeps, AddDeps, Ids, NodeMap, ListsTerminals, IsLast, Elems;
    ReplacedResets(nodes, k, node, r);
  }

  lemma ReplacedResets(nodes: seq<PlanNode>, k: nat, node: PlanNode, injected: seq<PlanNode>)
    requires k < |nodes| && nodes[k].dependsOn <= node.dependsOn
    requires node == nodes[k].(status := Draft, error := None, dependsOn := node.dependsOn)
    requires ListsTerminals(node.dependsOn[|nodes[k].dependsOn|..], nodes[k].dependsOn, injected)
    ensures ResetsAt(nodes, nodes[k := node] + injected, k)
  {
    hide ListsTerminals;
    assert (nodes[k := node] + injected)[|nodes|..] == injected;
  }

  /** Without the originator the plan's nodes stay as they are. */
  lemma InjectWithoutOriginator(nodes: seq<PlanNode>, origId: string, subs: seq<PlanNode>)
    requires origId !in Ids(nodes)
    ensures nodes <= Inject(nodes, origId, subs) && |Inject(nodes, origId, subs)| == |nodes| + |subs|
  {
  }
}
