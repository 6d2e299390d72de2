/** Capacity, lifecycle and persistence invariants of the hive, kept by every step and every restart. */
module HiveSafety {
  import opened Wrappers
  import opened Dag
  import opened HiveModel

  // ---- the invariant ----

  ghost predicate TableOk(h: Hive) {
    && Distinct(h.order) && Elems(h.order) == h.tasks.Keys
    && forall id :: id in h.tasks ==> h.tasks[id].taskId == id
  }

  /** Running tasks are exactly those with an outstanding future; futures fit the worker pool. */
  ghost predicate FuturesOk(tuning: Tuning, h: Hive) {
    && h.futures.Keys <= h.tasks.Keys
    && (forall id :: id in h.tasks ==>
         (h.tasks[id].status == Running <==> id in h.futures && h.futures[id] == Pending))
    && |h.futures| <= tuning.workerCount
  }

  ghost predicate CapacityOk(tuning: Tuning, h: Hive) {
    |ActiveIds(h.tasks)| <= tuning.maxQueueSize
  }

  /** What each status says about attempts, results, errors and cancellation. */
  ghost predicate TaskOk(t: TaskRecord) {
    && t.backoffSeconds >= 0.0
    && (t.status == Queued ==> t.attempt == 0)
    && (t.status == Retrying ==> 1 <= t.attempt <= t.maxRetries)
    && (t.status in {Running, Succeeded} ==> 1 <= t.attempt <= t.maxRetries + 1)
    && (t.status == Failed ==> 1 <= t.attempt <= t.maxRetries + 1)
    && (t.status == Failed && t.lastError != Some(RecoveredAfterRestart) ==>
         t.attempt == t.maxRetries + 1 && !t.cancelRequested)
    && (t.status == Cancelled ==> t.attempt <= t.maxRetries + 1)
    && (t.cancelRequested ==> t.status in {Running, Cancelled, Failed})
    && (t.status == Succeeded <==> t.result.Some?)
    && (t.status == Queued ==> t.lastError == None)
    && (t.status in {Retrying, Failed} ==> t.lastError.Some?)
  }

  /** Restarting from the state file is restarting from memory. */
  ghost predicate FileOk(h: Hive) {
    && LoadTasks(FileRecords(h.persisted)) == RecoverAll(h.tasks)
    && LoadOrder(FileRecords(h.persisted)) == h.order
  }

  ghost predicate Inv(tuning: Tuning, h: Hive) {
    && TableOk(h) && FuturesOk(tuning, h) && CapacityOk(tuning, h) && FileOk(h)
    && forall id :: id in h.tasks ==> TaskOk(h.tasks[id])
  }

  lemma EmptyInv(tuning: Tuning)
    ensures Inv(tuning, EMPTY_HIVE)
  {
    assert ActiveIds(EMPTY_HIVE.tasks) == {};
  }

  // ---- the state file ----

  lemma {:induction false} LoadInvertsRecords(tasks: map<string, TaskRecord>, order: seq<string>)
    requires Distinct(order) && Elems(order) <= tasks.Keys
    requires forall id :: id in tasks ==> tasks[id].taskId == id
    ensures LoadOrder(Records(tasks, order)) == order
    ensures LoadTasks(Records(tasks, order)).Keys == Elems(order)
    ensures forall id :: id in order ==> LoadTasks(Records(tasks, order))[id] == RecoverRecord(tasks[id])
  {
    hide RecoverRecord;
    if order != [] {
      var k := |order| - 1;
      var records := Records(tasks, order);
      assert order == order[..k] + [order[k]];
      assert records[..k] == Records(tasks, order[..k]);
      LoadInvertsRecords(tasks, order[..k]);
      assert order[k] !in order[..k];
      assert records[k].taskId == order[k];
    }
  }

  lemma PersistIsFileOk(h: Hive)
    requires TableOk(h)
    ensures FileOk(Persist(h))
  {
    hide LoadTasks, LoadOrder, RecoverRecord, Distinct;
    LoadInvertsRecords(h.tasks, h.order);
    var loaded := LoadTasks(Records(h.tasks, h.order));
    forall id | id in h.tasks ensures id in loaded && loaded[id] == RecoverAll(h.tasks)[id] {
      assert id in Elems(h.order);
    }
  }

  // ---- one record changes ----

  /** Everything but the state file is fine. */
  ghost predicate CoreOk(tuning: Tuning, h: Hive) {
    && TableOk(h) && FuturesOk(tuning, h) && CapacityOk(tuning, h)
    && forall id :: id in h.tasks ==> TaskOk(h.tasks[id])
  }

  lemma PersistKeepsCore(tuning: Tuning, h: Hive)
    requires CoreOk(tuning, h)
    ensures Inv(tuning, Persist(h))
  {
    hide FileOk, LoadTasks, LoadOrder;
    PersistIsFileOk(h);
  }

  lemma ActiveUpdate(tasks: map<string, TaskRecord>, id: string, t: TaskRecord)
    requires id in tasks && (IsActive(t.status) ==> IsActive(tasks[id].status))
    ensures |ActiveIds(tasks[id := t])| <= |ActiveIds(tasks)|
  {
    SubsetSize(ActiveIds(tasks[id := t]), ActiveIds(tasks));
  }

  lemma CancelledOk(t: TaskRecord)
    requires TaskOk(t) && !IsTerminal(t.status)
    ensures TaskOk(CancelRecord(t)) && CancelRecord(t).taskId == t.taskId
    ensures CancelRecord(t).status == Running <==> t.status == Running
    ensures IsActive(CancelRecord(t).status) ==> IsActive(t.status)
  {
  }

  lemma CancelKeepsInv(tuning: Tuning, h: Hive, id: string)
    requires Inv(tuning, h)
    ensures Inv(tuning, AfterCancel(h, id))
  {
    hide ActiveIds, Persist, LoadTasks, LoadOrder, FileOk, TaskOk, Distinct, CancelRecord;
    if CancelAccepted(h, id) {
      CancelledOk(h.tasks[id]);
      ActiveUpdate(h.tasks, id, CancelRecord(h.tasks[id]));
      PersistKeepsCore(tuning, h.(tasks := h.tasks[id := CancelRecord(h.tasks[id])]));
    }
  }

  /** How an attempt ends: the record's new status, and what else of it changes. */
  ghost predicate AttemptEnds(t: TaskRecord, o: ActionOutcome, now: real, t': TaskRecord) {
    && (t'.status == Cancelled <==> t.cancelRequested)
    && (t'.status == Succeeded <==> o.ActionReturned? && !t.cancelRequested)
    && (t'.status == Retrying <==> o.ActionRaised? && !t.cancelRequested && t.attempt <= t.maxRetries)
    && (t'.status == Failed <==> o.ActionRaised? && !t.cancelRequested && t.attempt > t.maxRetries)
    && t'.result == (if t'.status == Succeeded then Some(o.result) else if o.ActionReturned? then None else t.result)
    && t'.lastError == (if o.ActionRaised? then Some(ActionFailed(o.message)) else t.lastError)
    && t'.nextRunAt == (if t'.status == Retrying then now + t.backoffSeconds * (t.attempt as real) else t.nextRunAt)
    && t'.taskId == t.taskId && t'.payload == t.payload && t'.attempt == t.attempt && t'.maxRetries == t.maxRetries
    && t'.backoffSeconds == t.backoffSeconds && t'.cancelRequested == t.cancelRequested
  }

  /** The record after an attempt, and that it is in order; a retry is never due earlier than now. */
  lemma CompletedOk(t: TaskRecord, o: ActionOutcome, now: real)
    requires TaskOk(t) && t.status == Running
    ensures var t' := CompleteRecord(t, o, now);
            && TaskOk(t') && AttemptEnds(t, o, now, t') && t'.status in {Cancelled, Succeeded, Retrying, Failed}
            && (t'.status == Retrying ==> t'.nextRunAt >= now)
  {
  }

  lemma CompleteKeepsInv(tuning: Tuning, h: Hive, id: string, o: ActionOutcome, now: real)
    requires Inv(tuning, h) && Enabled(h, Complete(id, o, now))
    ensures Inv(tuning, AfterComplete(h, id, o, now))
  {
    hide ActiveIds, Persist, LoadTasks, LoadOrder, CompleteRecord, AttemptEnds;
    var t := CompleteRecord(h.tasks[id], o, now);
    CompletedOk(h.tasks[id], o, now);
    ActiveUpdate(h.tasks, id, t);
    SameSizeUpdate(h.futures, id, Written);
    PersistKeepsCore(tuning, h.(tasks := h.tasks[id := t], futures := h.futures[id := Written]));
  }

  lemma SameSizeUpdate(futures: map<string, FutureState>, id: string, f: FutureState)
    requires id in futures
    ensures |futures[id := f]| == |futures|
  {
    assert futures[id := f].Keys == futures.Keys;
  }

  lemma ActiveInsert(tasks: map<string, TaskRecord>, id: string, t: TaskRecord)
    requires id !in tasks && IsActive(t.status)
    ensures |ActiveIds(tasks[id := t])| == |ActiveIds(tasks)| + 1
  {
    assert ActiveIds(tasks[id := t]) == ActiveIds(tasks) + {id};
  }

  lemma SubmitKeepsCore(tuning: Tuning, h: Hive, t: TaskRecord)
    requires CoreOk(tuning, h) && Enabled(h, Submit(t)) && Admits(tuning, h)
    ensures CoreOk(tuning, h.(tasks := h.tasks[t.taskId := t], order := h.order + [t.taskId]))
  {
    NewTaskOk(t);
    SubmitKeepsTable(h, t);
    SubmitKeepsFutures(tuning, h, t);
    ActiveInsert(h.tasks, t.taskId, t);
    hide TableOk, FuturesOk, ActiveIds, TaskOk, NewTask;
  }

  lemma SubmitKeepsTable(h: Hive, t: TaskRecord)
    requires TableOk(h) && t.taskId !in h.tasks
    ensures TableOk(h.(tasks := h.tasks[t.taskId := t], order := h.order + [t.taskId]))
  {
    hide Distinct, Elems;
    AppendDistinct(h.order, t.taskId);
  }

  lemma SubmitKeepsFutures(tuning: Tuning, h: Hive, t: TaskRecord)
    requires FuturesOk(tuning, h) && t.taskId !in h.tasks && t.status == Queued
    ensures FuturesOk(tuning, h.(tasks := h.tasks[t.taskId := t], order := h.order + [t.taskId]))
  {
  }

  lemma NewTaskOk(t: TaskRecord)
    requires t.backoffSeconds >= 0.0
    requires t == NewTask(t.taskId, t.payload, t.maxRetries, t.backoffSeconds, t.nextRunAt)
    ensures TaskOk(t) && t.status == Queued
  {
  }

  lemma SubmitKeepsInv(tuning: Tuning, h: Hive, t: TaskRecord)
    requires Inv(tuning, h) && Enabled(h, Submit(t))
    ensures Inv(tuning, AfterSubmit(tuning, h, t))
  {
    hide Persist, TableOk, FuturesOk, CapacityOk, FileOk, TaskOk, Admits;
    if Admits(tuning, h) {
      SubmitKeepsCore(tuning, h, t);
      PersistKeepsCore(tuning, h.(tasks := h.tasks[t.taskId := t], order := h.order + [t.taskId]));
    }
  }

  lemma AppendDistinct(s: seq<string>, x: string)
    requires Distinct(s) && x !in Elems(s)
    ensures Distinct(s + [x]) && Elems(s + [x]) == Elems(s) + {x}
  {
    assert forall i :: 0 <= i < |s| ==> s[i] in Elems(s);
  }

  // ---- the scheduler tick ----

  lemma ChosenFits(tuning: Tuning, h: Hive, now: real)
    requires TableOk(h)
    ensures |Elems(Chosen(tuning, h, now))| <= Slots(tuning, PopDone(h.futures))
    ensures forall id :: id in Chosen(tuning, h, now) ==> id in h.tasks && IsDue(h.tasks[id], now)
  {
    hide PopDone, IsDue;
    var due := Due(h.tasks, h.order, now);
    var chosen := Chosen(tuning, h, now);
    DistinctSize(chosen);
    assert forall id :: id in chosen ==> id in due;
  }

  lemma UnionSize(a: set<string>, b: set<string>)
    ensures |a + b| <= |a| + |b|
  {
    assert a + b == a + (b - a);
    SubsetSize(b - a, b);
  }

  lemma TickFutures(tuning: Tuning, h: Hive, now: real)
    requires TableOk(h) && FuturesOk(tuning, h)
    ensures |DispatchFutures(PopDone(h.futures), Elems(Chosen(tuning, h, now)))| <= tuning.workerCount
  {
    hide Chosen, FuturesOk, TableOk;
    var popped := PopDone(h.futures);
    var chosen := Elems(Chosen(tuning, h, now));
    ChosenFits(tuning, h, now);
    PopDoneShrinks(tuning, h);
    assert DispatchFutures(popped, chosen).Keys == popped.Keys + chosen;
    UnionSize(popped.Keys, chosen);
  }

  lemma PopDoneShrinks(tuning: Tuning, h: Hive)
    requires FuturesOk(tuning, h)
    ensures |PopDone(h.futures)| <= |h.futures| <= tuning.workerCount
  {
    SubsetSize(PopDone(h.futures).Keys, h.futures.Keys);
  }

  lemma TickActive(tasks: map<string, TaskRecord>, chosen: set<string>)
    requires forall id :: id in chosen ==> id in tasks && IsActive(tasks[id].status)
    ensures ActiveIds(DispatchTasks(tasks, chosen)) == ActiveIds(tasks)
  {
  }

  lemma DispatchedOk(t: TaskRecord, now: real)
    requires TaskOk(t) && IsDue(t, now)
    ensures TaskOk(DispatchRecord(t))
  {
  }

  /** The tables after a dispatch: running still means outstanding. */
  lemma TickTables(h: Hive, tuning: Tuning, chosen: set<string>, now: real)
    requires TableOk(h) && FuturesOk(tuning, h)
    requires forall id :: id in chosen ==> id in h.tasks && IsDue(h.tasks[id], now)
    requires forall id :: id in h.tasks ==> TaskOk(h.tasks[id])
    ensures var tasks, futures := DispatchTasks(h.tasks, chosen), DispatchFutures(PopDone(h.futures), chosen);
            && tasks.Keys == h.tasks.Keys && futures.Keys <= tasks.Keys
            && (forall id :: id in tasks ==> tasks[id].taskId == id && TaskOk(tasks[id]))
            && (forall id :: id in tasks ==> (tasks[id].status == Running <==> id in futures && futures[id] == Pending))
  {
    hide TaskOk, Distinct;
    var tasks := DispatchTasks(h.tasks, chosen);
    forall id | id in tasks ensures TaskOk(tasks[id]) {
      if id in chosen { DispatchedOk(h.tasks[id], now); }
    }
  }

  lemma TickKeepsInv(tuning: Tuning, h: Hive, now: real)
    requires Inv(tuning, h)
    ensures Inv(tuning, AfterTick(tuning, h, now))
  {
    hide Persist, LoadTasks, LoadOrder, Distinct, Chosen, DispatchTasks, DispatchFutures, PopDone, ActiveIds, TaskOk;
    var chosen := Elems(Chosen(tuning, h, now));
    ChosenFits(tuning, h, now);
    TickTables(h, tuning, chosen, now);
    TickFutures(tuning, h, now);
    TickActive(h.tasks, chosen);
    PersistKeepsCore(tuning, h.(tasks := DispatchTasks(h.tasks, chosen),
                                futures := DispatchFutures(PopDone(h.futures), chosen)));
  }

  // ---- restart ----

  /** Recovery turns exactly the running tasks into failed ones, keeps the rest and the order, and is idempotent. */
  lemma RestartRecovers(tuning: Tuning, h: Hive)
    requires Inv(tuning, h)
    ensures var r := Restarted(h);
            && r.order == h.order && r.tasks.Keys == h.tasks.Keys && r.futures == map[]
            && (forall id :: id in h.tasks && h.tasks[id].status == Running ==>
                 r.tasks[id] == h.tasks[id].(status := Failed, lastError := Some(RecoveredAfterRestart)))
            && (forall id :: id in h.tasks && h.tasks[id].status != Running ==> r.tasks[id] == h.tasks[id])
            && RecoverAll(r.tasks) == r.tasks
            && Restarted(r) == r
    ensures var fromMemory := Restarted(Persist(h));
            Restarted(h).tasks == fromMemory.tasks && Restarted(h).order == fromMemory.order
  {
    hide LoadTasks, LoadOrder, Distinct, ActiveIds, TaskOk;
    PersistIsFileOk(h);
  }

  /** Tasks that a restart leaves active: those that wait for a dispatch. */
  function WaitingIds(tasks: map<string, TaskRecord>): set<string> {
    set id | id in tasks && tasks[id].status in {Queued, Retrying}
  }

  lemma WaitingAreActive(tasks: map<string, TaskRecord>, recovered: map<string, TaskRecord>)
    requires recovered == RecoverAll(tasks)
    ensures ActiveIds(recovered) == WaitingIds(tasks) <= ActiveIds(tasks)
  {
  }

  lemma RestartedParts(tuning: Tuning, tuning': Tuning, h: Hive)
    requires Inv(tuning, h)
    ensures var r := Restarted(h);
            && TableOk(r) && FuturesOk(tuning', r) && FileOk(r) && (forall id :: id in r.tasks ==> TaskOk(r.tasks[id]))
            && r.tasks == RecoverAll(h.tasks)
  {
    hide LoadTasks, LoadOrder, Distinct, ActiveIds, CapacityOk;
    RestartRecovers(tuning, h);
    var r := Restarted(h);
    forall id | id in r.tasks ensures TaskOk(r.tasks[id]) {
      RecoveredOk(h.tasks[id]);
    }
  }

  /**
   A restart, also under another tuning, re-establishes every invariant exactly when the tasks that
   wait fit the queue of the new tuning.
   */
  lemma RestartKeepsInvIff(tuning: Tuning, tuning': Tuning, h: Hive)
    requires Inv(tuning, h)
    ensures Inv(tuning', Restarted(h)) <==> |WaitingIds(h.tasks)| <= tuning'.maxQueueSize
  {
    hide TableOk, FuturesOk, FileOk, TaskOk, Restarted, ActiveIds, WaitingIds, RecoverAll;
    RestartedParts(tuning, tuning', h);
    WaitingAreActive(h.tasks, Restarted(h).tasks);
  }

  lemma RestartKeepsInv(tuning: Tuning, h: Hive)
    requires Inv(tuning, h)
    ensures Inv(tuning, Restarted(h))
  {
    RestartKeepsInvIff(tuning, tuning, h);
    WaitingAreActive(h.tasks, RecoverAll(h.tasks));
    hide TableOk, FuturesOk, FileOk, TaskOk, Restarted, ActiveIds, WaitingIds, RecoverAll;
    SubsetSize(WaitingIds(h.tasks), ActiveIds(h.tasks));
  }

  lemma RecoveredOk(t: TaskRecord)
    requires TaskOk(t)
    ensures TaskOk(RecoverRecord(t))
  {
  }

  lemma FutureDoneKeepsInv(tuning: Tuning, h: Hive, id: string)
    requires Inv(tuning, h) && Enabled(h, FutureDone(id))
    ensures Inv(tuning, h.(futures := h.futures[id := Done]))
  {
    hide LoadTasks, LoadOrder, Distinct, ActiveIds, TaskOk;
    SameSizeUpdate(h.futures, id, Done);
  }

  // ---- every step, every run ----

  lemma StepKeepsInv(tuning: Tuning, h: Hive, e: Event)
    requires Inv(tuning, h) && Enabled(h, e)
    ensures Inv(tuning, Next(tuning, h, e))
  {
    hide AfterSubmit, AfterCancel, AfterTick, AfterComplete, Restarted, FuturesOk, CapacityOk, FileOk, TaskOk;
    match e
    case Submit(t) => SubmitKeepsInv(tuning, h, t);
    case Cancel(id) => CancelKeepsInv(tuning, h, id);
    case Tick(now) => TickKeepsInv(tuning, h, now);
    case Complete(id, o, now) => CompleteKeepsInv(tuning, h, id, o, now);
    case FutureDone(id) => FutureDoneKeepsInv(tuning, h, id);
    case Restart => RestartKeepsInv(tuning, h);
  }

  /** `es` is a run from `h`: submissions, cancellations, ticks, completions and restarts in any order. */
  ghost predicate Runs(tuning: Tuning, h: Hive, es: seq<Event>)
    requires Inv(tuning, h)
    decreases |es|
  {
    es == [] || (Enabled(h, es[0]) && (StepKeepsInv(tuning, h, es[0]); Runs(tuning, Next(tuning, h, es[0]), es[1..])))
  }

  ghost function Final(tuning: Tuning, h: Hive, es: seq<Event>): (r: Hive)
    requires Inv(tuning, h) && Runs(tuning, h, es)
    ensures Inv(tuning, r)
    decreases |es|
  {
    if es == [] then h
    else
      StepKeepsInv(tuning, h, es[0]);
      Final(tuning, Next(tuning, h, es[0]), es[1..])
  }
}
