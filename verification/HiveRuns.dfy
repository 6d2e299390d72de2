/** Whole runs of the hive: finite task lives, cancellation, and the spacing of retries. */
module HiveRuns {
  import opened Wrappers
  import opened Dag
  import opened HiveModel
  import opened HiveSafety

  // ---- what one step can do to one record ----

  /** The ways a step may change a record; `Same` when it leaves it alone. */
  ghost predicate RecordStep(t: TaskRecord, t': TaskRecord, e: Event) {
    || t' == t
    || (e.Cancel? && !IsTerminal(t.status) && t' == CancelRecord(t))
    || (e.Tick? && IsDue(t, e.now) && t' == DispatchRecord(t))
    || (e.Complete? && t.status == Running && t' == CompleteRecord(t, e.outcome, e.now))
    || (e.Restart? && t' == RecoverRecord(t))
  }

  lemma StepRecord(tuning: Tuning, h: Hive, e: Event, id: string)
    requires Inv(tuning, h) && Enabled(h, e) && id in h.tasks
    ensures id in Next(tuning, h, e).tasks && RecordStep(h.tasks[id], Next(tuning, h, e).tasks[id], e)
  {
    hide TaskOk, CapacityOk, Chosen, Distinct, ActiveIds, LoadTasks, LoadOrder, RecoverRecord, CompleteRecord,
         CancelRecord, DispatchRecord, IsDue;
    match e
    case Tick(now) => ChosenFits(tuning, h, now);
    case Restart => RestartTable(tuning, h, id);
    case _ =>
  }

  lemma RestartTable(tuning: Tuning, h: Hive, id: string)
    requires Inv(tuning, h) && id in h.tasks
    ensures id in Restarted(h).tasks && Restarted(h).tasks[id] == RecoverRecord(h.tasks[id])
  {
    hide LoadTasks, LoadOrder, RecoverRecord;
  }

  // ---- each task changes finitely often ----

  /** Changes the record can still go through. */
  function TaskMeasure(t: TaskRecord): nat {
    if IsTerminal(t.status) || t.attempt > t.maxRetries + 1 then 0
    else
      4 * (t.maxRetries + 1 - t.attempt)
      + (if t.status != Running then 1 else if t.cancelRequested then 2 else 3)
  }

  /** Every step leaves a record alone or lowers its measure; finished records are left alone. */
  lemma RecordStepLowers(t: TaskRecord, t': TaskRecord, e: Event)
    requires TaskOk(t) && RecordStep(t, t', e)
    ensures t' == t || TaskMeasure(t') < TaskMeasure(t)
    ensures IsTerminal(t.status) ==> t' == t
  {
  }

  function Changes(tuning: Tuning, h: Hive, es: seq<Event>, id: string): (n: nat)
    requires Inv(tuning, h) && Runs(tuning, h, es) && id in h.tasks
    decreases |es|
  {
    if es == [] then 0
    else
      StepKeepsInv(tuning, h, es[0]);
      StepRecord(tuning, h, es[0], id);
      var next := Next(tuning, h, es[0]);
      (if next.tasks[id] == h.tasks[id] then 0 else 1) + Changes(tuning, next, es[1..], id)
  }

  /** In any run a task's record changes at most 4 * max_retries + 5 times from its submission on. */
  lemma {:induction false} ChangesBounded(tuning: Tuning, h: Hive, es: seq<Event>, id: string)
    requires Inv(tuning, h) && Runs(tuning, h, es) && id in h.tasks
    ensures Changes(tuning, h, es, id) <= TaskMeasure(h.tasks[id]) <= 4 * h.tasks[id].maxRetries + 7
    ensures h.tasks[id].status == Queued ==> TaskMeasure(h.tasks[id]) == 4 * h.tasks[id].maxRetries + 5
    decreases |es|
  {
    hide Next, TaskOk, TaskMeasure, RecordStep, FuturesOk, CapacityOk, FileOk, Distinct;
    MeasureRange(h.tasks[id]);
    if es != [] {
      StepKeepsInv(tuning, h, es[0]);
      StepRecord(tuning, h, es[0], id);
      var next := Next(tuning, h, es[0]);
      RecordStepLowers(h.tasks[id], next.tasks[id], es[0]);
      ChangesBounded(tuning, next, es[1..], id);
    }
  }

  lemma MeasureRange(t: TaskRecord)
    requires TaskOk(t)
    ensures TaskMeasure(t) <= 4 * t.maxRetries + 7
    ensures t.status == Queued ==> TaskMeasure(t) == 4 * t.maxRetries + 5
  {
  }

  // ---- properties of one record kept along runs ----

  lemma {:induction false} RunKeepsTerminal(tuning: Tuning, h: Hive, es: seq<Event>, id: string)
    requires Inv(tuning, h) && Runs(tuning, h, es) && id in h.tasks
    requires h.tasks[id].status in {Succeeded, Failed, Cancelled}
    ensures id in Final(tuning, h, es).tasks && Final(tuning, h, es).tasks[id] == h.tasks[id]
    decreases |es|
  {
    hide Next, TaskOk, RecordStep, FuturesOk, CapacityOk, FileOk, Distinct;
    if es != [] {
      StepKeepsInv(tuning, h, es[0]);
      StepRecord(tuning, h, es[0], id);
      RecordStepLowers(h.tasks[id], Next(tuning, h, es[0]).tasks[id], es[0]);
      RunKeepsTerminal(tuning, Next(tuning, h, es[0]), es[1..], id);
    }
  }

  // ---- cancellation ----

  /** Cancelled, or running its last attempt and bound to be cancelled. */
  ghost predicate Cancelling(t: TaskRecord) {
    t.status == Cancelled || (t.status == Running && t.cancelRequested)
  }

  /** Cancelling, or caught by a restart while it was. */
  ghost predicate CancelHolds(t: TaskRecord) {
    Cancelling(t) || (t.status == Failed && t.cancelRequested && t.lastError == Some(RecoveredAfterRestart))
  }

  /** A cancellation of a task that is not finished takes effect at once; another one changes nothing. */
  lemma CancelTakesEffect(tuning: Tuning, h: Hive, id: string)
    requires Inv(tuning, h)
    ensures Elems(h.order) <= h.tasks.Keys
    ensures var h' := Next(tuning, h, Cancel(id));
            if id in h.tasks && h.tasks[id].status in {Queued, Retrying, Running} then
              id in h'.tasks && Cancelling(h'.tasks[id]) && h'.tasks[id].attempt == h.tasks[id].attempt
            else h' == h
  {
    hide TaskOk, FuturesOk, CapacityOk, FileOk, Records;
    if id in h.tasks {
      ActiveOrTerminal(h.tasks[id].status);
    }
  }

  lemma RecordStepKeepsCancel(t: TaskRecord, t': TaskRecord, e: Event)
    requires TaskOk(t) && RecordStep(t, t', e) && CancelHolds(t)
    ensures CancelHolds(t') && t'.attempt == t.attempt
    ensures Cancelling(t) && !e.Restart? ==> Cancelling(t')
  {
  }

  /**
   After an accepted cancellation, whatever the race with completion or failure, the task never
   succeeds, never retries and is never dispatched again; without a restart it can only end cancelled.
   */
  lemma {:induction false} RunKeepsCancel(tuning: Tuning, h: Hive, es: seq<Event>, id: string)
    requires Inv(tuning, h) && Runs(tuning, h, es) && id in h.tasks && CancelHolds(h.tasks[id])
    ensures id in Final(tuning, h, es).tasks
    ensures var t := Final(tuning, h, es).tasks[id];
            && CancelHolds(t) && t.attempt == h.tasks[id].attempt
            && (Cancelling(h.tasks[id]) && Restart !in es ==> Cancelling(t))
    decreases |es|
  {
    hide Next, TaskOk, RecordStep, FuturesOk, CapacityOk, FileOk, CancelHolds, Cancelling, Distinct;
    if es != [] {
      StepKeepsInv(tuning, h, es[0]);
      StepRecord(tuning, h, es[0], id);
      RecordStepKeepsCancel(h.tasks[id], Next(tuning, h, es[0]).tasks[id], es[0]);
      RunKeepsCancel(tuning, Next(tuning, h, es[0]), es[1..], id);
    }
  }

  // ---- what a tick does with its free slots ----

  lemma UnionFull(a: set<string>, b: set<string>, n: nat)
    requires |a| + |b| == n
    ensures |a + b| == n <==> b !! a
  {
    assert a + b == a + (b - a);
    assert b == (b - a) + (b * a);
    if b * a != {} {
      var id :| id in b * a;
      SubsetSize({id}, b * a);
    }
  }

  lemma DueBoth(tasks: map<string, TaskRecord>, a: string, b: string, now: real)
    requires a != b && a in tasks && b in tasks && IsDue(tasks[a], now) && IsDue(tasks[b], now)
    ensures Due(tasks, [a, b], now) == [a, b]
  {
    hide IsDue;
    assert [a, b][..1] == [a] && [a][..0] == [];
    assert Due(tasks, [], now) == [];
    assert Due(tasks, [a], now) == [a];
  }

  /** Two workers, one lingering future: its task's retry is dispatched and the other due task still waits. */
  lemma SlotLeftIdle(a: TaskRecord, b: TaskRecord, file: Option<seq<TaskRecord>>)
    requires a.taskId != b.taskId && a.status == Retrying && b.status == Queued
    requires IsDue(a, 0.0) && IsDue(b, 0.0)
    ensures var h := Hive(map[a.taskId := a, b.taskId := b], [a.taskId, b.taskId], map[a.taskId := Written], file);
            var h' := AfterTick(Tuning(2, 2), h, 0.0);
            |h'.futures| == 1 && h'.tasks[b.taskId] == b
  {
    var h := Hive(map[a.taskId := a, b.taskId := b], [a.taskId, b.taskId], map[a.taskId := Written], file);
    DueBoth(h.tasks, a.taskId, b.taskId, 0.0);
    assert PopDone(h.futures) == map[a.taskId := Written];
    hide IsDue, Records, Due, DispatchRecord, PopDone;
    assert Chosen(Tuning(2, 2), h, 0.0) == [a.taskId];
    assert Elems([a.taskId]) == {a.taskId};
    assert AfterTick(Tuning(2, 2), h, 0.0).futures.Keys == {a.taskId};
  }

  /** Tables, insertion order and futures of a hive, whatever its state file. */
  predicate Holds(h: Hive, tasks: map<string, TaskRecord>, order: seq<string>, futures: map<string, FutureState>) {
    h.tasks == tasks && h.order == order && h.futures == futures
  }

  lemma SubmitsOne(tuning: Tuning, h: Hive, t: TaskRecord)
    requires Elems(h.order) <= h.tasks.Keys && Admits(tuning, h) && t.taskId !in h.tasks
    ensures Holds(Next(tuning, h, Submit(t)), h.tasks[t.taskId := t], h.order + [t.taskId], h.futures)
  {
    hide Admits, Records;
  }

  lemma TicksOne(tuning: Tuning, h: Hive, a: TaskRecord, now: real)
    requires Holds(h, map[a.taskId := a], [a.taskId], map[]) && IsDue(a, now) && tuning.workerCount > 0
    ensures Holds(Next(tuning, h, Tick(now)), map[a.taskId := DispatchRecord(a)], [a.taskId], map[a.taskId := Pending])
  {
    hide IsDue, Records, DispatchRecord;
    assert h.order[..0] == [];
    assert Due(h.tasks, h.order, now) == [a.taskId];
    assert PopDone(h.futures) == map[];
    assert Chosen(tuning, h, now) == [a.taskId];
    assert Elems([a.taskId]) == {a.taskId};
  }

  lemma FailsOne(tuning: Tuning, h: Hive, a: TaskRecord, message: string, now: real)
    requires Holds(h, map[a.taskId := a], [a.taskId], map[a.taskId := Pending])
    ensures Enabled(h, Complete(a.taskId, ActionRaised(message), now))
    ensures Elems(h.order) <= h.tasks.Keys
    ensures Holds(Next(tuning, h, Complete(a.taskId, ActionRaised(message), now)),
                  map[a.taskId := CompleteRecord(a, ActionRaised(message), now)], [a.taskId], map[a.taskId := Written])
  {
    hide Records, CompleteRecord;
  }

  lemma TwoAdmitted(tuning: Tuning, h: Hive, a: TaskRecord, futures: map<string, FutureState>)
    requires tuning.maxQueueSize > 1 && Holds(h, map[a.taskId := a], [a.taskId], futures)
    ensures Admits(tuning, h)
  {
    assert ActiveIds(h.tasks) <= {a.taskId};
    SubsetSize(ActiveIds(h.tasks), {a.taskId});
  }

  lemma RunsOn(tuning: Tuning, h: Hive, e: Event, es: seq<Event>)
    requires Inv(tuning, h) && Enabled(h, e)
    ensures Inv(tuning, Next(tuning, h, e))
    ensures Runs(tuning, Next(tuning, h, e), es) ==>
      Runs(tuning, h, [e] + es) && Final(tuning, h, [e] + es) == Final(tuning, Next(tuning, h, e), es)
  {
    StepKeepsInv(tuning, h, e);
    hide Inv, Enabled, Next;
    assert ([e] + es)[1..] == es;
  }

  /** One of two workers is idle although `b` is due. */
  ghost predicate SlotIdle(h: Hive, b: TaskRecord) {
    |h.futures| == 1 && b.taskId in h.tasks && h.tasks[b.taskId] == b && IsDue(b, 0.0)
  }

  ghost predicate EndsIdle(tuning: Tuning, h: Hive, es: seq<Event>, b: TaskRecord) {
    Inv(tuning, h) && Runs(tuning, h, es) && SlotIdle(Final(tuning, h, es), b)
  }

  /** Some run from `h` ends with the slot idle. */
  ghost predicate ComesToIdle(tuning: Tuning, h: Hive, b: TaskRecord) {
    exists es :: EndsIdle(tuning, h, es, b)
  }

  lemma InvListed(tuning: Tuning, h: Hive, e: Event)
    requires Inv(tuning, h) && Enabled(h, e)
    ensures Elems(h.order) <= h.tasks.Keys && (e.Complete? ==> e.id in h.tasks)
  {
    hide FuturesOk, CapacityOk, FileOk, TaskOk;
  }

  lemma ComesBefore(tuning: Tuning, h: Hive, e: Event, b: TaskRecord)
    requires Inv(tuning, h) && Enabled(h, e)
    ensures Elems(h.order) <= h.tasks.Keys && (e.Complete? ==> e.id in h.tasks)
    ensures Inv(tuning, Next(tuning, h, e))
    ensures ComesToIdle(tuning, Next(tuning, h, e), b) ==> ComesToIdle(tuning, h, b)
  {
    StepKeepsInv(tuning, h, e);
    InvListed(tuning, h, e);
    hide Inv, Enabled, Next, SlotIdle;
    if es :| EndsIdle(tuning, Next(tuning, h, e), es, b) {
      RunsOn(tuning, h, e, es);
      assert EndsIdle(tuning, h, [e] + es, b);
    }
  }

  /** Two tasks to take in turn: one that fails once with a retry left, and one that waits behind it. */
  ghost predicate IdlePair(a: TaskRecord, b: TaskRecord) {
    && a == NewTask(a.taskId, a.payload, 1, 0.0, 0.0) && b == NewTask(b.taskId, b.payload, 0, 0.0, 0.0)
    && a.taskId != b.taskId
  }

  function OnceFailed(a: TaskRecord, message: string): TaskRecord {
    CompleteRecord(DispatchRecord(a), ActionRaised(message), 0.0)
  }

  lemma PairIsDue(a: TaskRecord, b: TaskRecord, message: string)
    requires IdlePair(a, b)
    ensures IsDue(a, 0.0) && IsDue(b, 0.0) && IsDue(OnceFailed(a, message), 0.0)
    ensures OnceFailed(a, message).status == Retrying && b.status == Queued
    ensures DispatchRecord(a).taskId == OnceFailed(a, message).taskId == a.taskId
  {
  }

  lemma LastTick(tuning: Tuning, h: Hive, a: TaskRecord, b: TaskRecord, message: string)
    requires tuning == Tuning(2, 2) && Inv(tuning, h) && IdlePair(a, b)
    requires Holds(h, map[a.taskId := OnceFailed(a, message), b.taskId := b], [a.taskId, b.taskId],
                   map[a.taskId := Written])
    ensures ComesToIdle(tuning, h, b)
  {
    assert a.taskId != b.taskId && Enabled(h, Tick(0.0));
    hide Inv, IsDue, OnceFailed, AfterTick, IdlePair, ComesToIdle, SlotIdle, Holds, DispatchRecord, Next, Enabled;
    PairIsDue(a, b, message);
    ComesBefore(tuning, h, Tick(0.0), b);
    TickIsIdle(tuning, h, OnceFailed(a, message), b);
    ComesAtOnce(tuning, Next(tuning, h, Tick(0.0)), b);
  }

  lemma TickIsIdle(tuning: Tuning, h: Hive, f: TaskRecord, b: TaskRecord)
    requires tuning == Tuning(2, 2) && Elems(h.order) <= h.tasks.Keys
    requires Holds(h, map[f.taskId := f, b.taskId := b], [f.taskId, b.taskId], map[f.taskId := Written])
    requires f.taskId != b.taskId && f.status == Retrying && b.status == Queued && IsDue(f, 0.0) && IsDue(b, 0.0)
    ensures SlotIdle(Next(tuning, h, Tick(0.0)), b)
  {
    SlotLeftIdle(f, b, h.persisted);
    hide IsDue, Records, Due, DispatchRecord, PopDone, Chosen;
    assert h == Hive(h.tasks, h.order, h.futures, h.persisted);
  }

  lemma ComesAtOnce(tuning: Tuning, h: Hive, b: TaskRecord)
    requires Inv(tuning, h) && SlotIdle(h, b)
    ensures ComesToIdle(tuning, h, b)
  {
    hide Inv;
    assert EndsIdle(tuning, h, [], b);
  }

  lemma SecondHeld(h: Hive, h': Hive, f: TaskRecord, b: TaskRecord, id: string)
    requires Holds(h, map[id := f], [id], map[id := Written]) && b.taskId != id
    requires Holds(h', h.tasks[b.taskId := b], h.order + [b.taskId], h.futures)
    ensures Holds(h', map[id := f, b.taskId := b], [id, b.taskId], map[id := Written])
  {
    assert [id] + [b.taskId] == [id, b.taskId];
  }

  lemma SecondSubmit(tuning: Tuning, h: Hive, a: TaskRecord, b: TaskRecord, message: string)
    requires tuning == Tuning(2, 2) && Inv(tuning, h) && IdlePair(a, b)
    requires Holds(h, map[a.taskId := OnceFailed(a, message)], [a.taskId], map[a.taskId := Written])
    ensures ComesToIdle(tuning, h, b)
  {
    TwoAdmitted(tuning, h, OnceFailed(a, message), map[a.taskId := Written]);
    assert Enabled(h, Submit(b)) && b.taskId !in h.tasks;
    hide Inv, OnceFailed, Admits, Enabled, Next, ComesToIdle, IdlePair;
    ComesBefore(tuning, h, Submit(b), b);
    SubmitsOne(tuning, h, b);
    SecondHeld(h, Next(tuning, h, Submit(b)), OnceFailed(a, message), b, a.taskId);
    hide Holds;
    LastTick(tuning, Next(tuning, h, Submit(b)), a, b, message);
  }

  lemma FirstFailure(tuning: Tuning, h: Hive, a: TaskRecord, b: TaskRecord, message: string)
    requires tuning == Tuning(2, 2) && Inv(tuning, h) && IdlePair(a, b)
    requires Holds(h, map[a.taskId := DispatchRecord(a)], [a.taskId], map[a.taskId := Pending])
    ensures ComesToIdle(tuning, h, b)
  {
    var e := Complete(a.taskId, ActionRaised(message), 0.0);
    assert DispatchRecord(a).taskId == a.taskId;
    hide Inv, Enabled, Next, CompleteRecord, DispatchRecord, Holds, ComesToIdle, IdlePair;
    FailsOne(tuning, h, DispatchRecord(a), message, 0.0);
    ComesBefore(tuning, h, e, b);
    SecondSubmit(tuning, Next(tuning, h, e), a, b, message);
  }

  lemma FirstTick(tuning: Tuning, h: Hive, a: TaskRecord, b: TaskRecord, message: string)
    requires tuning == Tuning(2, 2) && Inv(tuning, h) && IdlePair(a, b)
    requires Holds(h, map[a.taskId := a], [a.taskId], map[])
    ensures ComesToIdle(tuning, h, b)
  {
    PairIsDue(a, b, message);
    assert Enabled(h, Tick(0.0));
    hide Inv, Next, DispatchRecord, Holds, IsDue, IdlePair, ComesToIdle, Enabled, OnceFailed;
    ComesBefore(tuning, h, Tick(0.0), b);
    TicksOne(tuning, h, a, 0.0);
    FirstFailure(tuning, Next(tuning, h, Tick(0.0)), a, b, message);
  }

  /**
   From the empty table a run comes to that state: submit, tick, a failing attempt with a retry left, a
   second submission, and a tick before the first future is done. One of two workers stays idle, a due task waits.
   */
  lemma IdleSlotReached(a: TaskRecord, b: TaskRecord, message: string)
    requires IdlePair(a, b)
    ensures exists es :: EndsIdle(Tuning(2, 2), EMPTY_HIVE, es, b)
  {
    var tuning := Tuning(2, 2);
    EmptyInv(tuning);
    EmptyAdmits(tuning, a);
    assert ComesToIdle(tuning, EMPTY_HIVE, b) by {
      assert IdlePair(a, b) && a.taskId !in EMPTY_HIVE.tasks;
      hide Inv, Next, Admits, Enabled, IdlePair, ComesToIdle;
      ComesBefore(tuning, EMPTY_HIVE, Submit(a), b);
      SubmitsOne(tuning, EMPTY_HIVE, a);
      assert [] + [a.taskId] == [a.taskId];
      FirstTick(tuning, Next(tuning, EMPTY_HIVE, Submit(a)), a, b, message);
    }
  }

  lemma EmptyAdmits(tuning: Tuning, a: TaskRecord)
    requires tuning.maxQueueSize > 0 && a == NewTask(a.taskId, a.payload, 1, 0.0, 0.0)
    ensures Admits(tuning, EMPTY_HIVE) && Enabled(EMPTY_HIVE, Submit(a))
  {
    assert ActiveIds(EMPTY_HIVE.tasks) == {};
  }

  // ---- the order of dispatch ----

  /** Due tasks come in insertion order, so a tick with few slots takes the ones submitted first. */
  lemma {:induction false} DueInOrder(tasks: map<string, TaskRecord>, order: seq<string>, now: real)
    requires Distinct(order)
    ensures InOrder(Due(tasks, order, now), order)
  {
    hide IsDue;
    if order != [] {
      var k := |order| - 1;
      DueInOrder(tasks, order[..k], now);
      var before := Due(tasks, order[..k], now);
      assert forall a :: 0 <= a < k ==> order[..k][a] == order[a];
      assert forall i :: 0 <= i < |before| ==> before[i] in order[..k];
      assert order[k] !in order[..k];
    }
  }

  // ---- the spacing of retries ----

  /** The hive with the clock and, as history, the time of each task's first dispatch. */
  datatype Timed = Timed(hive: Hive, clock: real, first: map<string, real>)

  /** Times are read under the lock and do not go back; a tick's time may have been read a little earlier. */
  ghost predicate InTime(s: Timed, e: Event) {
    match e
    case Submit(t) => t.nextRunAt >= s.clock
    case Complete(id, o, now) => now >= s.clock
    case _ => true
  }

  function Later(a: real, b: real): real {
    if a >= b then a else b
  }

  function TimedNext(tuning: Tuning, s: Timed, e: Event): Timed
    requires Inv(tuning, s.hive) && Enabled(s.hive, e)
  {
    var next := Next(tuning, s.hive, e);
    match e
    case Submit(t) => Timed(next, t.nextRunAt, s.first)
    case Complete(id, o, now) => Timed(next, now, s.first)
    case Tick(now) =>
      var chosen := Elems(Chosen(tuning, s.hive, now));
      Timed(next, Later(s.clock, now), (map id | id in chosen :: now) + s.first)
    case _ => Timed(next, s.clock, s.first)
  }

  function Triangle(k: nat): nat {
    if k == 0 then 0 else Triangle(k - 1) + k
  }

  lemma {:induction false} TriangleClosed(k: nat)
    ensures 2 * Triangle(k) == k * (k + 1)
  {
    if k > 0 {
      TriangleClosed(k - 1);
    }
  }

  function Delay(backoff: real, k: nat): real {
    backoff * (Triangle(k) as real)
  }

  lemma DelayStep(backoff: real, k: nat)
    ensures k > 0 ==> Delay(backoff, k) == Delay(backoff, k - 1) + backoff * (k as real)
    ensures Delay(backoff, 0) == 0.0
  {
    if k > 0 {
      assert Triangle(k) as real == (Triangle(k - 1) as real) + (k as real);
    }
  }

  /** How late a task's state proves the clock, or its next run, to be. */
  ghost predicate Spaced(t: TaskRecord, clock: real, first: map<string, real>) {
    && (t.taskId in first <==> t.attempt > 0)
    && (t.status == Running ==> t.attempt > 0 && clock >= first[t.taskId] + Delay(t.backoffSeconds, t.attempt - 1))
    && (t.status == Retrying ==> t.attempt > 0 && t.nextRunAt >= first[t.taskId] + Delay(t.backoffSeconds, t.attempt))
  }

  ghost predicate TimedInv(tuning: Tuning, s: Timed) {
    && Inv(tuning, s.hive)
    && s.first.Keys <= s.hive.tasks.Keys
    && forall id :: id in s.hive.tasks ==> Spaced(s.hive.tasks[id], s.clock, s.first)
  }

  lemma SpacedLater(t: TaskRecord, clock: real, clock': real, first: map<string, real>, first': map<string, real>)
    requires Spaced(t, clock, first) && clock <= clock'
    requires t.taskId in first <==> t.taskId in first'
    requires t.taskId in first ==> first'[t.taskId] == first[t.taskId]
    ensures Spaced(t, clock', first')
  {
    hide Delay;
  }

  lemma SpacedStep(t: TaskRecord, t': TaskRecord, e: Event, clock: real, first: map<string, real>, clock': real)
    requires TaskOk(t) && Spaced(t, clock, first) && RecordStep(t, t', e) && !e.Tick?
    requires clock <= clock' && (e.Complete? ==> e.now == clock')
    ensures Spaced(t', clock', first)
  {
    hide Delay;
    if t' != t && e.Complete? {
      DelayStep(t.backoffSeconds, t.attempt);
    }
  }

  /** A dispatch comes no earlier than the delays of the attempts before it add up to. */
  lemma SpacedDispatch(t: TaskRecord, now: real, clock: real, first: map<string, real>, first': map<string, real>)
    requires TaskOk(t) && Spaced(t, clock, first) && IsDue(t, now)
    requires t.taskId in first' && first'[t.taskId] == if t.taskId in first then first[t.taskId] else now
    ensures now >= first'[t.taskId] + Delay(t.backoffSeconds, t.attempt)
    ensures Spaced(DispatchRecord(t), Later(clock, now), first')
  {
    hide Delay;
    DelayStep(t.backoffSeconds, t.attempt);
  }

  lemma TickSpaced(tuning: Tuning, s: Timed, now: real, id: string)
    requires TimedInv(tuning, s) && id in s.hive.tasks
    ensures id in TimedNext(tuning, s, Tick(now)).hive.tasks
    ensures var s' := TimedNext(tuning, s, Tick(now)); Spaced(s'.hive.tasks[id], s'.clock, s'.first)
  {
    hide TaskOk, FuturesOk, CapacityOk, FileOk, Chosen, Spaced, IsDue, DispatchRecord, Records;
    var t := s.hive.tasks[id];
    var s' := TimedNext(tuning, s, Tick(now));
    ChosenFits(tuning, s.hive, now);
    SpacedDomain(t, s.clock, s.first);
    if id in Chosen(tuning, s.hive, now) {
      SpacedDispatch(t, now, s.clock, s.first, s'.first);
    } else {
      SpacedLater(t, s.clock, s'.clock, s.first, s'.first);
    }
  }

  lemma SpacedDomain(t: TaskRecord, clock: real, first: map<string, real>)
    requires Spaced(t, clock, first)
    ensures t.taskId in first <==> t.attempt > 0
  {
  }

  lemma TimedStepKeepsInv(tuning: Tuning, s: Timed, e: Event)
    requires TimedInv(tuning, s) && Enabled(s.hive, e) && InTime(s, e)
    ensures TimedInv(tuning, TimedNext(tuning, s, e))
  {
    hide TaskOk, FuturesOk, CapacityOk, FileOk, Spaced, AfterSubmit, AfterCancel, AfterTick, AfterComplete,
         Restarted, RecordStep;
    StepKeepsInv(tuning, s.hive, e);
    var s' := TimedNext(tuning, s, e);
    forall id | id in s'.hive.tasks
      ensures Spaced(s'.hive.tasks[id], s'.clock, s'.first)
    {
      if id in s.hive.tasks {
        if e.Tick? {
          TickSpaced(tuning, s, e.now, id);
        } else {
          StepRecord(tuning, s.hive, e, id);
          SpacedStep(s.hive.tasks[id], s'.hive.tasks[id], e, s.clock, s.first, s'.clock);
        }
      } else {
        OnlySubmitAdds(tuning, s.hive, e, id);
        NewTaskSpaced(e.task, s'.clock, s'.first);
      }
    }
    TimedFirstKeys(tuning, s, e);
  }

  lemma NewTaskSpaced(t: TaskRecord, clock: real, first: map<string, real>)
    requires t.status == Queued && t.attempt == 0 && t.taskId !in first
    ensures Spaced(t, clock, first)
  {
  }

  lemma OnlySubmitAdds(tuning: Tuning, h: Hive, e: Event, id: string)
    requires Inv(tuning, h) && Enabled(h, e) && id in Next(tuning, h, e).tasks && id !in h.tasks
    ensures e.Submit? && e.task.taskId == id && Next(tuning, h, e).tasks[id] == e.task
  {
    hide TaskOk, CapacityOk, FuturesOk, ActiveIds, Chosen, LoadTasks, LoadOrder;
  }

  lemma TimedFirstKeys(tuning: Tuning, s: Timed, e: Event)
    requires TimedInv(tuning, s) && Enabled(s.hive, e)
    ensures TimedNext(tuning, s, e).first.Keys <= TimedNext(tuning, s, e).hive.tasks.Keys
  {
    hide TaskOk, CapacityOk, FuturesOk, FileOk, ActiveIds, Chosen, Spaced, Next;
    forall id | id in s.hive.tasks ensures id in Next(tuning, s.hive, e).tasks {
      StepRecord(tuning, s.hive, e, id);
    }
    if e.Tick? {
      ChosenFits(tuning, s.hive, e.now);
    }
  }

  ghost predicate TimedRuns(tuning: Tuning, s: Timed, es: seq<Event>)
    requires TimedInv(tuning, s)
    decreases |es|
  {
    es == [] ||
    (Enabled(s.hive, es[0]) && InTime(s, es[0]) &&
     (TimedStepKeepsInv(tuning, s, es[0]); TimedRuns(tuning, TimedNext(tuning, s, es[0]), es[1..])))
  }

  ghost function TimedFinal(tuning: Tuning, s: Timed, es: seq<Event>): (r: Timed)
    requires TimedInv(tuning, s) && TimedRuns(tuning, s, es)
    ensures TimedInv(tuning, r)
    decreases |es|
  {
    if es == [] then s
    else
      TimedStepKeepsInv(tuning, s, es[0]);
      TimedFinal(tuning, TimedNext(tuning, s, es[0]), es[1..])
  }

  ghost function TimedStart(tuning: Tuning, clock: real): (s: Timed)
    ensures TimedInv(tuning, s)
  {
    EmptyInv(tuning);
    Timed(EMPTY_HIVE, clock, map[])
  }

  lemma DueAfterDelay(tuning: Tuning, s: Timed, now: real, id: string)
    requires TimedInv(tuning, s) && id in Chosen(tuning, s.hive, now) && id in s.first
    ensures id in s.hive.tasks && s.hive.tasks[id].attempt > 0
    ensures now >= s.first[id] + Delay(s.hive.tasks[id].backoffSeconds, s.hive.tasks[id].attempt)
  {
    hide TaskOk, CapacityOk, FuturesOk, FileOk, Chosen, IsDue, Spaced, Delay;
    ChosenFits(tuning, s.hive, now);
    var t := s.hive.tasks[id];
    SpacedDomain(t, s.clock, s.first);
    SpacedDispatch(t, now, s.clock, s.first, s.first);
  }

  /**
   Along every run from an empty table under a clock that does not go back: a tick that dispatches
   a task for attempt R + 1 does so at least backoff * R * (R + 1) / 2 after its first dispatch.
   */
  lemma RetrySpacing(tuning: Tuning, clock: real, es: seq<Event>, now: real, id: string)
    requires TimedRuns(tuning, TimedStart(tuning, clock), es)
    requires id in Chosen(tuning, TimedFinal(tuning, TimedStart(tuning, clock), es).hive, now)
    requires id in TimedFinal(tuning, TimedStart(tuning, clock), es).first
    ensures var s := TimedFinal(tuning, TimedStart(tuning, clock), es);
            && id in s.hive.tasks && s.hive.tasks[id].attempt > 0
            && var R := s.hive.tasks[id].attempt;
            2.0 * (now - s.first[id]) >= s.hive.tasks[id].backoffSeconds * ((R * (R + 1)) as real)
  {
    hide TimedInv, Chosen, TimedRuns, TimedStart, Triangle;
    var s := TimedFinal(tuning, TimedStart(tuning, clock), es);
    DueAfterDelay(tuning, s, now, id);
    DelayClosed(s.hive.tasks[id].backoffSeconds, s.hive.tasks[id].attempt);
  }

  lemma DelayClosed(backoff: real, k: nat)
    ensures 2.0 * Delay(backoff, k) == backoff * ((k * (k + 1)) as real)
  {
    TriangleClosed(k);
    assert (k * (k + 1)) as real == 2.0 * (Triangle(k) as real);
  }
}
