/**
 The hive scheduler as a state machine: every step is one section under the controller's lock,
 a worker thread's progress, or a restart of the process.
 */
module HiveModel {
  import opened Wrappers
  import opened Dag

  datatype TaskStatus = Queued | Retrying | Running | Succeeded | Failed | Cancelled

  datatype TaskError = ActionFailed(message: string) | RecoveredAfterRestart

  datatype TaskRecord = TaskRecord(
    taskId: string,
    payload: string,
    status: TaskStatus,
    attempt: nat,
    maxRetries: nat,
    backoffSeconds: real,
    nextRunAt: real,
    lastError: Option<TaskError>,
    result: Option<string>,
    cancelRequested: bool)

  datatype Tuning = Tuning(workerCount: nat, maxQueueSize: nat)

  /** Outstanding; outcome recorded but the future not yet done; done. */
  datatype FutureState = Pending | Written | Done

  /** `order` is the insertion order of `tasks`; `persisted` is the state file. */
  datatype Hive = Hive(
    tasks: map<string, TaskRecord>,
    order: seq<string>,
    futures: map<string, FutureState>,
    persisted: Option<seq<TaskRecord>>)

  predicate IsActive(s: TaskStatus) {
    s in {Queued, Retrying, Running}
  }

  predicate IsTerminal(s: TaskStatus) {
    s in {Succeeded, Failed, Cancelled}
  }

  lemma ActiveOrTerminal(s: TaskStatus)
    ensures s in {Queued, Retrying, Running} <==> s !in {Succeeded, Failed, Cancelled}
  {
    match s
    case _ =>
  }

  function ActiveIds(tasks: map<string, TaskRecord>): set<string> {
    set id | id in tasks && IsActive(tasks[id].status)
  }

  // ---- the state file ----

  function Records(tasks: map<string, TaskRecord>, order: seq<string>): (r: seq<TaskRecord>)
    requires Elems(order) <= tasks.Keys
    ensures |r| == |order|
    ensures forall i :: 0 <= i < |r| ==> order[i] in tasks && r[i] == tasks[order[i]]
  {
    assert forall i :: 0 <= i < |order| ==> order[i] in Elems(order);
    seq(|order|, i requires 0 <= i < |order| => tasks[order[i]])
  }

  function RecoverRecord(t: TaskRecord): TaskRecord {
    if t.status == Running then t.(status := Failed, lastError := Some(RecoveredAfterRestart)) else t
  }

  function RecoverAll(tasks: map<string, TaskRecord>): map<string, TaskRecord> {
    map id | id in tasks :: RecoverRecord(tasks[id])
  }

  /** The table and insertion order a state file loads into. */
  function LoadTasks(records: seq<TaskRecord>): map<string, TaskRecord> {
    if records == [] then map[]
    else
      var last := records[|records| - 1];
      LoadTasks(records[..|records| - 1])[last.taskId := RecoverRecord(last)]
  }

  function LoadOrder(records: seq<TaskRecord>): seq<string> {
    if records == [] then []
    else
      var before := LoadOrder(records[..|records| - 1]);
      var id := records[|records| - 1].taskId;
      if id in before then before else before + [id]
  }

  function FileRecords(persisted: Option<seq<TaskRecord>>): seq<TaskRecord> {
    match persisted
    case None => []
    case Some(records) => records
  }

  /** A fresh controller on what the state file holds. */
  function Restarted(h: Hive): Hive {
    Hive(LoadTasks(FileRecords(h.persisted)), LoadOrder(FileRecords(h.persisted)), map[], h.persisted)
  }

  function Persist(h: Hive): Hive
    requires Elems(h.order) <= h.tasks.Keys
  {
    h.(persisted := Some(Records(h.tasks, h.order)))
  }

  // ---- sections under the lock ----

  function NewTask(id: string, payload: string, maxRetries: nat, backoff: real, now: real): TaskRecord {
    TaskRecord(id, payload, Queued, 0, maxRetries, backoff, now, None, None, false)
  }

  predicate Admits(tuning: Tuning, h: Hive) {
    |ActiveIds(h.tasks)| < tuning.maxQueueSize
  }

  function AfterSubmit(tuning: Tuning, h: Hive, task: TaskRecord): Hive
    requires Elems(h.order) <= h.tasks.Keys
  {
    if !Admits(tuning, h) then h
    else
      var order := if task.taskId in h.tasks then h.order else h.order + [task.taskId];
      Persist(h.(tasks := h.tasks[task.taskId := task], order := order))
  }

  /** What a cancellation request answers. */
  predicate CancelAccepted(h: Hive, id: string) {
    id in h.tasks && !IsTerminal(h.tasks[id].status)
  }

  function CancelRecord(t: TaskRecord): TaskRecord {
    if t.status in {Queued, Retrying} then t.(status := Cancelled) else t.(cancelRequested := true)
  }

  function AfterCancel(h: Hive, id: string): Hive
    requires Elems(h.order) <= h.tasks.Keys
  {
    if CancelAccepted(h, id) then Persist(h.(tasks := h.tasks[id := CancelRecord(h.tasks[id])])) else h
  }

  function PopDone(futures: map<string, FutureState>): map<string, FutureState> {
    map id | id in futures && futures[id] != Done :: futures[id]
  }

  predicate IsDue(t: TaskRecord, now: real) {
    t.status in {Queued, Retrying} && !t.cancelRequested && t.nextRunAt <= now
  }

  /** Tasks to consider for dispatch, in insertion order. */
  function Due(tasks: map<string, TaskRecord>, order: seq<string>, now: real): (r: seq<string>)
    ensures forall id :: id in r <==> id in order && id in tasks && IsDue(tasks[id], now)
    ensures Distinct(order) ==> Distinct(r)
  {
    if order == [] then []
    else
      var k := |order| - 1;
      var before := Due(tasks, order[..k], now);
      assert forall id :: id in order <==> id in order[..k] || id == order[k];
      assert Distinct(order) ==> order[k] !in order[..k];
      if order[k] in tasks && IsDue(tasks[order[k]], now) then before + [order[k]] else before
  }

  function Slots(tuning: Tuning, futures: map<string, FutureState>): nat {
    if tuning.workerCount >= |futures| then tuning.workerCount - |futures| else 0
  }

  /** The ids a tick dispatches: the first due tasks, one per free slot. */
  function Chosen(tuning: Tuning, h: Hive, now: real): seq<string> {
    var due := Due(h.tasks, h.order, now);
    var slots := Slots(tuning, PopDone(h.futures));
    if |due| <= slots then due else due[..slots]
  }

  function DispatchRecord(t: TaskRecord): TaskRecord {
    t.(status := Running, attempt := t.attempt + 1)
  }

  function DispatchTasks(tasks: map<string, TaskRecord>, chosen: set<string>): map<string, TaskRecord> {
    map id | id in tasks :: if id in chosen then DispatchRecord(tasks[id]) else tasks[id]
  }

  function DispatchFutures(futures: map<string, FutureState>, chosen: set<string>): map<string, FutureState> {
    map id | id in futures.Keys + chosen :: if id in chosen then Pending else futures[id]
  }

  function AfterTick(tuning: Tuning, h: Hive, now: real): Hive
    requires Elems(h.order) <= h.tasks.Keys
  {
    var chosen := Elems(Chosen(tuning, h, now));
    Persist(h.(tasks := DispatchTasks(h.tasks, chosen), futures := DispatchFutures(PopDone(h.futures), chosen)))
  }

  datatype ActionOutcome = ActionReturned(result: string) | ActionRaised(message: string)

  function CompleteRecord(t: TaskRecord, o: ActionOutcome, now: real): TaskRecord {
    match o
    case ActionRaised(message) =>
      var t' := t.(lastError := Some(ActionFailed(message)));
      if t.cancelRequested then t'.(status := Cancelled)
      else if t.attempt <= t.maxRetries then
        t'.(status := Retrying, nextRunAt := now + t.backoffSeconds * (t.attempt as real))
      else t'.(status := Failed)
    case ActionReturned(result) =>
      if t.cancelRequested then t.(status := Cancelled, result := None)
      else t.(status := Succeeded, result := Some(result))
  }

  function AfterComplete(h: Hive, id: string, o: ActionOutcome, now: real): Hive
    requires Elems(h.order) <= h.tasks.Keys && id in h.tasks
  {
    Persist(h.(tasks := h.tasks[id := CompleteRecord(h.tasks[id], o, now)], futures := h.futures[id := Written]))
  }

  // ---- the state machine ----

  datatype Event =
    | Submit(task: TaskRecord)
    | Cancel(id: string)
    | Tick(now: real)
    | Complete(id: string, outcome: ActionOutcome, now: real)
    | FutureDone(id: string)
    | Restart

  /** A submitted record is new, freshly named, and sanitized: no negative backoff. */
  ghost predicate Enabled(h: Hive, e: Event) {
    match e
    case Submit(t) =>
      && t.taskId !in h.tasks && t.backoffSeconds >= 0.0
      && t == NewTask(t.taskId, t.payload, t.maxRetries, t.backoffSeconds, t.nextRunAt)
    case Cancel(id) => true
    case Tick(now) => true
    case Complete(id, o, now) => id in h.tasks && id in h.futures && h.futures[id] == Pending
    case FutureDone(id) => id in h.futures && h.futures[id] == Written
    case Restart => true
  }

  function Next(tuning: Tuning, h: Hive, e: Event): Hive
    requires Elems(h.order) <= h.tasks.Keys
    requires e.Complete? ==> e.id in h.tasks
  {
    match e
    case Submit(t) => AfterSubmit(tuning, h, t)
    case Cancel(id) => AfterCancel(h, id)
    case Tick(now) => AfterTick(tuning, h, now)
    case Complete(id, o, now) => AfterComplete(h, id, o, now)
    case FutureDone(id) => h.(futures := h.futures[id := Done])
    case Restart => Restarted(h)
  }

  const EMPTY_HIVE := Hive(map[], [], map[], None)
}
