/**
 What each section under the lock does, field by field and in terms of the hive before and after,
 without the functions that compute it.
 */
module HiveContracts {
  import opened Wrappers
  import opened Dag
  import opened HiveModel
  import opened HiveSafety
  import opened HiveRuns

  /** The state file holds the task table in insertion order. */
  ghost predicate Saved(h: Hive) {
    && h.persisted.Some? && |h.persisted.value| == |h.order|
    && forall i :: 0 <= i < |h.order| ==> h.order[i] in h.tasks && h.persisted.value[i] == h.tasks[h.order[i]]
  }

  lemma PersistSaves(h: Hive)
    requires Elems(h.order) <= h.tasks.Keys
    ensures Saved(Persist(h))
  {
  }

  /** Only the record of `id` differs. */
  ghost predicate OnlyRecord(h: Hive, h': Hive, id: string) {
    && h'.tasks.Keys == h.tasks.Keys && h'.order == h.order
    && forall n :: n in h.tasks && n != id ==> h'.tasks[n] == h.tasks[n]
  }

  // ---- submission ----

  function OccupiedIds(h: Hive): set<string> {
    set id | id in h.tasks && h.tasks[id].status in {Queued, Retrying, Running}
  }

  /** A submission is admitted exactly while the queue has room; then a queued record is appended and saved. */
  ghost predicate Submits(tuning: Tuning, h: Hive, id: string, payload: string, maxRetries: nat, backoff: real,
                          now: real, admitted: bool, h': Hive) {
    && (admitted <==> |OccupiedIds(h)| < tuning.maxQueueSize)
    && (!admitted ==> h' == h)
    && (admitted ==>
         && h'.order == h.order + [id] && h'.futures == h.futures && Saved(h')
         && h'.tasks.Keys == h.tasks.Keys + {id}
         && (forall n :: n in h.tasks ==> h'.tasks[n] == h.tasks[n])
         && var t := h'.tasks[id];
            && t.taskId == id && t.payload == payload && t.status == Queued && t.attempt == 0
            && t.maxRetries == maxRetries && t.backoffSeconds == backoff && t.nextRunAt == now
            && t.lastError == None && t.result == None && !t.cancelRequested)
  }

  lemma OccupiedAreActive(h: Hive)
    ensures OccupiedIds(h) == ActiveIds(h.tasks)
  {
  }

  lemma SubmitDoes(tuning: Tuning, h: Hive, id: string, payload: string, maxRetries: nat, backoff: real, now: real)
    requires TableOk(h) && id !in h.tasks
    ensures Submits(tuning, h, id, payload, maxRetries, backoff, now, |OccupiedIds(h)| < tuning.maxQueueSize,
                    Next(tuning, h, Submit(NewTask(id, payload, maxRetries, backoff, now))))
  {
    hide Records, Distinct, Saved;
    OccupiedAreActive(h);
    var t := NewTask(id, payload, maxRetries, backoff, now);
    var after := h.(tasks := h.tasks[id := t], order := h.order + [id]);
    assert Elems(after.order) == Elems(h.order) + {id};
    PersistSaves(after);
  }

  // ---- cancellation ----

  /** Waiting tasks are cancelled at once, running ones asked to stop; other requests are refused. */
  ghost predicate Cancels(h: Hive, id: string, accepted: bool, h': Hive) {
    && (accepted <==> id in h.tasks && h.tasks[id].status in {Queued, Retrying, Running})
    && (!accepted ==> h' == h)
    && (accepted ==>
         && OnlyRecord(h, h', id) && h'.futures == h.futures && Saved(h')
         && (h.tasks[id].status in {Queued, Retrying} ==> h'.tasks[id] == h.tasks[id].(status := Cancelled))
         && (h.tasks[id].status == Running ==> h'.tasks[id] == h.tasks[id].(cancelRequested := true)))
  }

  lemma CancelDoes(tuning: Tuning, h: Hive, id: string)
    requires TableOk(h)
    ensures var accepted := id in h.tasks && h.tasks[id].status in {Queued, Retrying, Running};
            Cancels(h, id, accepted, Next(tuning, h, Cancel(id)))
  {
    hide Records, Distinct, Saved;
    if id in h.tasks {
      ActiveOrTerminal(h.tasks[id].status);
    }
    if CancelAccepted(h, id) {
      var after := h.(tasks := h.tasks[id := CancelRecord(h.tasks[id])]);
      PersistSaves(after);
      assert OnlyRecord(h, Persist(after), id);
    }
  }

  // ---- the end of an attempt ----

  ghost predicate Completes(h: Hive, id: string, o: ActionOutcome, now: real, h': Hive)
    requires id in h.tasks
  {
    && OnlyRecord(h, h', id) && AttemptEnds(h.tasks[id], o, now, h'.tasks[id])
    && h'.futures == h.futures[id := Written] && Saved(h')
  }

  lemma CompleteDoes(tuning: Tuning, h: Hive, id: string, o: ActionOutcome, now: real)
    requires TableOk(h) && id in h.tasks
    ensures Completes(h, id, o, now, Next(tuning, h, Complete(id, o, now)))
  {
    hide Records, Distinct, Saved;
    PersistSaves(h.(tasks := h.tasks[id := CompleteRecord(h.tasks[id], o, now)], futures := h.futures[id := Written]));
  }

  // ---- the scheduler tick ----

  function DueIds(h: Hive, now: real): set<string> {
    set id | id in h.tasks
      && h.tasks[id].status in {Queued, Retrying} && !h.tasks[id].cancelRequested && h.tasks[id].nextRunAt <= now
  }

  /** Tasks whose future is not done. */
  function HeldIds(h: Hive): set<string> {
    set id | id in h.futures && h.futures[id] != Done
  }

  /** Tasks that got another attempt. */
  function DispatchedIds(h: Hive, h': Hive): set<string> {
    set id | id in h.tasks && id in h'.tasks && h'.tasks[id].attempt != h.tasks[id].attempt
  }

  function Min(a: nat, b: nat): nat {
    if a <= b then a else b
  }

  function FreeSlots(tuning: Tuning, h: Hive): nat {
    if |HeldIds(h)| <= tuning.workerCount then tuning.workerCount - |HeldIds(h)| else 0
  }

  /**
   As many due tasks as there are free slots get an attempt, the first in insertion order; done
   futures go, dispatched tasks get a new one, and the others keep theirs.
   */
  ghost predicate Ticks(tuning: Tuning, h: Hive, now: real, h': Hive) {
    var dispatched := DispatchedIds(h, h');
    && h'.order == h.order && h'.tasks.Keys == h.tasks.Keys && Saved(h')
    && (forall id :: id in h.tasks && id !in dispatched ==> h'.tasks[id] == h.tasks[id])
    && (forall id :: id in dispatched ==>
         h'.tasks[id] == h.tasks[id].(status := Running, attempt := h.tasks[id].attempt + 1))
    && dispatched <= DueIds(h, now)
    && |dispatched| == Min(|DueIds(h, now)|, FreeSlots(tuning, h))
    && (forall i, j :: 0 <= i < j < |h.order| && h.order[j] in dispatched && h.order[i] in DueIds(h, now) ==>
         h.order[i] in dispatched)
    && h'.futures.Keys == dispatched + HeldIds(h)
    && (forall id :: id in dispatched ==> h'.futures[id] == Pending)
    && (forall id :: id in HeldIds(h) - dispatched ==> h'.futures[id] == h.futures[id])
  }

  lemma DueAreDueIds(h: Hive, now: real)
    requires TableOk(h)
    ensures Elems(Due(h.tasks, h.order, now)) == DueIds(h, now)
    ensures |Due(h.tasks, h.order, now)| == |DueIds(h, now)|
  {
    var due := Due(h.tasks, h.order, now);
    forall id ensures id in due <==> id in DueIds(h, now) {
      assert id in Elems(h.order) <==> id in h.order;
    }
    DistinctSize(due);
  }

  lemma HeldIsPopped(h: Hive)
    ensures PopDone(h.futures).Keys == HeldIds(h) && |PopDone(h.futures)| == |HeldIds(h)|
  {
  }

  /** The dispatched ids are the chosen ones, as many as slots and due tasks allow. */
  lemma ChosenCount(tuning: Tuning, h: Hive, now: real)
    requires TableOk(h)
    ensures |Elems(Chosen(tuning, h, now))| == Min(|DueIds(h, now)|, FreeSlots(tuning, h))
    ensures Elems(Chosen(tuning, h, now)) <= DueIds(h, now)
  {
    DueAreDueIds(h, now);
    HeldIsPopped(h);
    hide Due, PopDone, DueIds, HeldIds;
    var due, chosen := Due(h.tasks, h.order, now), Chosen(tuning, h, now);
    assert Distinct(due) && chosen <= due;
    DistinctSize(chosen);
    assert forall id :: id in chosen ==> id in Elems(due);
  }

  lemma ChosenAreFirst(tuning: Tuning, h: Hive, now: real, i: nat, j: nat)
    requires TableOk(h) && i < j < |h.order|
    requires h.order[j] in Chosen(tuning, h, now) && h.order[i] in DueIds(h, now)
    ensures h.order[i] in Chosen(tuning, h, now)
  {
    DueAreDueIds(h, now);
    DueInOrder(h.tasks, h.order, now);
    hide Due, DueIds, Slots, PopDone, TableOk;
    var due, chosen := Due(h.tasks, h.order, now), Chosen(tuning, h, now);
    assert h.order[i] in Elems(due);
    var b :| 0 <= b < |chosen| && chosen[b] == h.order[j];
    var a :| 0 <= a < |due| && due[a] == h.order[i];
    assert due[b] == h.order[j] && due[a] == h.order[i];
    assert a <= b;
    assert chosen[a] == due[a];
  }

  lemma TickedTables(h: Hive, h': Hive, now: real, chosen: set<string>)
    requires TableOk(h) && chosen <= DueIds(h, now)
    requires h'.tasks == DispatchTasks(h.tasks, chosen) && h'.futures == DispatchFutures(PopDone(h.futures), chosen)
    ensures DispatchedIds(h, h') == chosen && h'.tasks.Keys == h.tasks.Keys
    ensures forall id :: id in h.tasks && id !in chosen ==> h'.tasks[id] == h.tasks[id]
    ensures forall id :: id in chosen ==>
      h'.tasks[id] == h.tasks[id].(status := Running, attempt := h.tasks[id].attempt + 1)
    ensures h'.futures.Keys == chosen + HeldIds(h)
    ensures forall id :: id in chosen ==> h'.futures[id] == Pending
    ensures forall id :: id in HeldIds(h) - chosen ==> h'.futures[id] == h.futures[id]
  {
  }

  lemma AllFirst(tuning: Tuning, h: Hive, now: real)
    requires TableOk(h)
    ensures var chosen := Elems(Chosen(tuning, h, now));
            forall i, j :: 0 <= i < j < |h.order| && h.order[j] in chosen && h.order[i] in DueIds(h, now) ==>
              h.order[i] in chosen
  {
    hide Chosen, DueIds, TableOk;
    forall i, j | 0 <= i < j < |h.order| && h.order[j] in Elems(Chosen(tuning, h, now)) && h.order[i] in DueIds(h, now)
      ensures h.order[i] in Elems(Chosen(tuning, h, now))
    {
      ChosenAreFirst(tuning, h, now, i, j);
    }
  }

  lemma TickFields(tuning: Tuning, h: Hive, now: real)
    requires TableOk(h)
    ensures var chosen, h' := Elems(Chosen(tuning, h, now)), Next(tuning, h, Tick(now));
            && h'.tasks == DispatchTasks(h.tasks, chosen) && h'.order == h.order && Saved(h')
            && h'.futures == DispatchFutures(PopDone(h.futures), chosen)
  {
    var chosen := Elems(Chosen(tuning, h, now));
    hide Chosen, DispatchFutures, PopDone, Saved, Records, Distinct;
    PersistSaves(h.(tasks := DispatchTasks(h.tasks, chosen), futures := DispatchFutures(PopDone(h.futures), chosen)));
  }

  lemma TickDoes(tuning: Tuning, h: Hive, now: real)
    requires TableOk(h)
    ensures Ticks(tuning, h, now, Next(tuning, h, Tick(now)))
  {
    assert Elems(h.order) <= h.tasks.Keys;
    hide Chosen, DispatchTasks, DispatchFutures, PopDone, Saved, DueIds, HeldIds, DispatchedIds, FreeSlots, Next, Elems,
         TableOk;
    TickFields(tuning, h, now);
    ChosenCount(tuning, h, now);
    AllFirst(tuning, h, now);
    TickedTables(h, Next(tuning, h, Tick(now)), now, Elems(Chosen(tuning, h, now)));
  }

  lemma ChosenAreDispatched(tuning: Tuning, h: Hive, now: real)
    requires TableOk(h)
    ensures DispatchedIds(h, Next(tuning, h, Tick(now))) == Elems(Chosen(tuning, h, now))
  {
    assert Elems(h.order) <= h.tasks.Keys;
    hide Chosen, DispatchTasks, DispatchFutures, PopDone, Saved, DueIds, HeldIds, DispatchedIds, FreeSlots, Next, Elems,
         TableOk;
    TickFields(tuning, h, now);
    ChosenCount(tuning, h, now);
    TickedTables(h, Next(tuning, h, Tick(now)), now, Elems(Chosen(tuning, h, now)));
  }

  /**
   When more tasks are due than there are slots, a tick leaves every worker slot taken exactly when
   no task it dispatches still has a future in the table: such a retry replaces its own future.
   */
  lemma SlotsAllTakenIff(tuning: Tuning, h: Hive, now: real)
    requires Inv(tuning, h) && |DueIds(h, now)| > FreeSlots(tuning, h)
    ensures Elems(h.order) <= h.tasks.Keys
    ensures var h' := Next(tuning, h, Tick(now));
            |h'.futures| == tuning.workerCount <==> DispatchedIds(h, h') !! HeldIds(h)
  {
    HeldFit(tuning, h);
    assert TableOk(h) && Elems(h.order) <= h.tasks.Keys;
    hide Inv, TableOk, Next, DueIds, HeldIds, DispatchedIds, Elems, Saved, Ticks;
    TickDoes(tuning, h, now);
    TickCounts(tuning, h, now, Next(tuning, h, Tick(now)));
  }

  lemma HeldFit(tuning: Tuning, h: Hive)
    requires Inv(tuning, h)
    ensures |HeldIds(h)| <= tuning.workerCount
  {
    hide TableOk, CapacityOk, FileOk, TaskOk;
    SubsetSize(HeldIds(h), h.futures.Keys);
  }

  lemma TickCounts(tuning: Tuning, h: Hive, now: real, h': Hive)
    requires Ticks(tuning, h, now, h') && |DueIds(h, now)| > FreeSlots(tuning, h) && |HeldIds(h)| <= tuning.workerCount
    ensures |h'.futures| == tuning.workerCount <==> DispatchedIds(h, h') !! HeldIds(h)
  {
    hide DueIds, HeldIds, DispatchedIds, Saved;
    assert h'.futures.Keys == HeldIds(h) + DispatchedIds(h, h');
    UnionFull(HeldIds(h), DispatchedIds(h, h'), tuning.workerCount);
  }

  // ---- recovery ----

  /** The last record of an id counts; a task that was running is failed, the others are taken as they are. */
  lemma {:induction false} LoadKeepsLast(records: seq<TaskRecord>, i: nat)
    requires i < |records| && forall j :: i < j < |records| ==> records[j].taskId != records[i].taskId
    ensures var t, tasks := records[i], LoadTasks(records);
            && t.taskId in tasks
            && (t.status == Running ==>
                 tasks[t.taskId] == t.(status := Failed, lastError := Some(RecoveredAfterRestart)))
            && (t.status != Running ==> tasks[t.taskId] == t)
    ensures records[i].taskId in LoadOrder(records)
    decreases |records|
  {
    if i < |records| - 1 {
      LoadKeepsLast(records[..|records| - 1], i);
    }
  }
}
