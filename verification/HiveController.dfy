/**
 The controller object: the task table in insertion order, the futures table and the state file.
 Each method is one section under the lock and makes exactly the step the state machine names.
 */
module HiveController {
  import opened Wrappers
  import opened Dag
  import opened HiveModel
  import opened HiveSafety
  import opened HiveContracts

  datatype SubmitError = QueueIsFull

  class HiveController {
    const tuning: Tuning
    var tasks: map<string, TaskRecord>
    var order: seq<string>
    var futures: map<string, FutureState>
    var stateFile: Option<seq<TaskRecord>>

    function State(): Hive
      reads this
    {
      Hive(tasks, order, futures, stateFile)
    }

    ghost predicate Valid()
      reads this
    {
      Inv(tuning, State())
    }

    /** Starts on a state file left by an earlier controller, of this or another size, or on none. */
    constructor (tuning: Tuning, ghost earlier: Tuning, ghost before: Hive, file: Option<seq<TaskRecord>>)
      requires Inv(earlier, before) && before.persisted == file
      ensures this.tuning == tuning
      ensures Valid() <==> |WaitingIds(before.tasks)| <= tuning.maxQueueSize
      ensures State() == Next(tuning, before, Restart)
    {
      this.tuning := tuning;
      tasks, order, futures := map[], [], map[];
      stateFile := file;
      new;
      hide LoadTasks, LoadOrder, Inv, WaitingIds;
      LoadState();
      RestartKeepsInvIff(earlier, tuning, before);
    }

    /** Reads the state file into an empty table; a task that was running is marked failed. */
    method LoadState()
      requires tasks == map[] && order == []
      modifies this`tasks, this`order
      ensures tasks == LoadTasks(FileRecords(stateFile)) && order == LoadOrder(FileRecords(stateFile))
    {
      if stateFile == None {
        return;
      }
      var records := stateFile.value;
      for i := 0 to |records|
        invariant tasks == LoadTasks(records[..i]) && order == LoadOrder(records[..i])
      {
        var task := records[i];
        if task.status == Running {
          task := task.(status := Failed, lastError := Some(RecoveredAfterRestart));
        }
        assert records[..i + 1][..i] == records[..i];
        tasks := tasks[task.taskId := task];
        if task.taskId !in order {
          order := order + [task.taskId];
        }
      }
      assert records[..|records|] == records;
    }

    method PersistState()
      requires Elems(order) <= tasks.Keys
      modifies this`stateFile
      ensures State() == Persist(old(State())) && Saved(State())
    {
      var records := [];
      for i := 0 to |order|
        invariant records == Records(tasks, order)[..i]
      {
        assert order[i] in Elems(order);
        records := records + [tasks[order[i]]];
      }
      assert records == Records(tasks, order);
      stateFile := Some(records);
      PersistSaves(old(State()));
    }

    /** Admits a task while fewer than `maxQueueSize` are active; `id` is a fresh identifier. */
    method SubmitTask(id: string, payload: string, maxRetries: nat, backoff: real, now: real)
      returns (r: Result<TaskRecord, SubmitError>)
      requires Valid() && id !in tasks && backoff >= 0.0
      modifies this
      ensures Valid()
      ensures Submits(tuning, old(State()), id, payload, maxRetries, backoff, now, r.Success?, State())
      ensures r.Success? ==> r.value == tasks[id]
      ensures State() == Next(tuning, old(State()), Submit(NewTask(id, payload, maxRetries, backoff, now)))
    {
      hide Records, Distinct, ActiveIds, Submits, OccupiedIds, Saved, TaskOk, FileOk, FuturesOk;
      SubmitDoes(tuning, State(), id, payload, maxRetries, backoff, now);
      OccupiedAreActive(State());
      StepKeepsInv(tuning, State(), Submit(NewTask(id, payload, maxRetries, backoff, now)));
      if |ActiveIds(tasks)| >= tuning.maxQueueSize {
        return Failure(QueueIsFull);
      }
      var task := NewTask(id, payload, maxRetries, backoff, now);
      tasks := tasks[id := task];
      order := order + [id];
      AppendDistinct(old(order), id);
      PersistState();
      r := Success(task);
    }

    method CancelTask(id: string) returns (accepted: bool)
      requires Valid()
      modifies this
      ensures Valid()
      ensures Cancels(old(State()), id, accepted, State())
      ensures State() == Next(tuning, old(State()), Cancel(id))
    {
      hide Records, Distinct, ActiveIds, TaskOk, FileOk, CapacityOk, FuturesOk, Cancels, Saved;
      CancelDoes(tuning, State(), id);
      if id in tasks {
        ActiveOrTerminal(tasks[id].status);
      }
      StepKeepsInv(tuning, State(), Cancel(id));
      if id !in tasks {
        return false;
      }
      var task := tasks[id];
      if task.status in {Succeeded, Failed, Cancelled} {
        return false;
      }
      if task.status in {Queued, Retrying} {
        tasks := tasks[id := task.(status := Cancelled)];
        PersistState();
        return true;
      }
      tasks := tasks[id := task.(cancelRequested := true)];
      PersistState();
      accepted := true;
    }

    /** Drops done futures and dispatches the first due tasks, one per free slot. */
    method SchedulerTick(now: real)
      requires Valid()
      modifies this
      ensures Valid()
      ensures Ticks(tuning, old(State()), now, State())
      ensures State() == Next(tuning, old(State()), Tick(now))
    {
      hide Ticks, Saved, Records, Distinct, ActiveIds, TaskOk, FileOk, CapacityOk, FuturesOk, Due,
           DispatchRecord, IsDue, PopDone;
      StepKeepsInv(tuning, State(), Tick(now));
      ChosenFits(tuning, State(), now);
      futures := PopDone(futures);
      var runnable := Due(tasks, order, now);
      var slots := Slots(tuning, futures);
      var chosen := if |runnable| <= slots then runnable else runnable[..slots];
      DueIsDistinct(tasks, order, now, chosen);
      DispatchChosen(chosen);
      PersistState();
      TickDoes(tuning, old(State()), now);
    }

    /** Marks each chosen task running and hands it to the worker pool. */
    method DispatchChosen(chosen: seq<string>)
      requires Distinct(chosen) && forall id :: id in chosen ==> id in tasks
      modifies this`tasks, this`futures
      ensures tasks == DispatchTasks(old(tasks), Elems(chosen))
      ensures futures == DispatchFutures(old(futures), Elems(chosen))
    {
      hide DispatchRecord, Elems, DispatchTasks, DispatchFutures;
      NothingDispatched(tasks, futures, chosen);
      for i := 0 to |chosen|
        invariant tasks == DispatchTasks(old(tasks), Elems(chosen[..i]))
        invariant futures == DispatchFutures(old(futures), Elems(chosen[..i]))
      {
        var id := chosen[i];
        assert id in chosen;
        DispatchOneMore(old(tasks), old(futures), chosen, i);
        Dispatched(tasks[id]);
        tasks := tasks[id := tasks[id].(status := Running, attempt := tasks[id].attempt + 1)];
        futures := futures[id := Pending];
      }
      assert chosen[..|chosen|] == chosen;
    }

    /** The record after an attempt: cancelled, to be retried after its backoff, failed, or succeeded. */
    method OutcomeRecord(task0: TaskRecord, o: ActionOutcome, now: real) returns (task: TaskRecord)
      ensures task == CompleteRecord(task0, o, now) && AttemptEnds(task0, o, now, task)
    {
      task := task0;
      match o {
        case ActionRaised(message) =>
          task := task.(lastError := Some(ActionFailed(message)));
          if task.cancelRequested {
            task := task.(status := Cancelled);
          } else if task.attempt <= task.maxRetries {
            task := task.(status := Retrying, nextRunAt := now + task.backoffSeconds * (task.attempt as real));
          } else {
            task := task.(status := Failed);
          }
        case ActionReturned(result) =>
          if task.cancelRequested {
            task := task.(status := Cancelled, result := None);
          } else {
            task := task.(status := Succeeded, result := Some(result));
          }
      }
    }

    /** Records how an attempt ended; the future itself is done a little later. */
    method RecordOutcome(id: string, o: ActionOutcome, now: real)
      requires Valid() && id in tasks && id in futures && futures[id] == Pending
      modifies this
      ensures Valid()
      ensures Completes(old(State()), id, o, now, State())
      ensures State() == Next(tuning, old(State()), Complete(id, o, now))
    {
      hide Completes, AttemptEnds, Saved, Records, Distinct, ActiveIds, TaskOk, FileOk, CapacityOk, FuturesOk,
           CompleteRecord;
      StepKeepsInv(tuning, State(), Complete(id, o, now));
      var task := OutcomeRecord(tasks[id], o, now);
      tasks := tasks[id := task];
      futures := futures[id := Written];
      PersistState();
      CompleteDoes(tuning, old(State()), id, o, now);
    }
  }

  lemma DueIsDistinct(tasks: map<string, TaskRecord>, order: seq<string>, now: real, chosen: seq<string>)
    requires Distinct(order) && chosen <= Due(tasks, order, now)
    ensures Distinct(chosen)
  {
  }

  lemma Dispatched(t: TaskRecord)
    ensures DispatchRecord(t) == t.(status := Running, attempt := t.attempt + 1)
  {
  }

  lemma NothingDispatched(tasks: map<string, TaskRecord>, futures: map<string, FutureState>, chosen: seq<string>)
    ensures DispatchTasks(tasks, Elems(chosen[..0])) == tasks
    ensures DispatchFutures(futures, Elems(chosen[..0])) == futures
  {
  }

  lemma DispatchOneMore(tasks: map<string, TaskRecord>, futures: map<string, FutureState>, chosen: seq<string>, i: nat)
    requires i < |chosen| && Distinct(chosen) && chosen[i] in tasks
    ensures DispatchTasks(tasks, Elems(chosen[..i])).Keys == tasks.Keys
    ensures DispatchTasks(tasks, Elems(chosen[..i]))[chosen[i]] == tasks[chosen[i]]
    ensures DispatchTasks(tasks, Elems(chosen[..i + 1]))
         == DispatchTasks(tasks, Elems(chosen[..i]))[chosen[i] := DispatchRecord(tasks[chosen[i]])]
    ensures DispatchFutures(futures, Elems(chosen[..i + 1]))
         == DispatchFutures(futures, Elems(chosen[..i]))[chosen[i] := Pending]
  {
    hide DispatchRecord;
    assert Elems(chosen[..i + 1]) == Elems(chosen[..i]) + {chosen[i]};
  }
}
