/** The mutex sections of the automation service, on the store and the table of executions. */
module AutomationService {
  import opened Options
  import A = AutomationState

  class RunningExecution {
    const task: string
    const generation: nat
    var cancelled: bool
    ghost const id: nat

    constructor (task: string, generation: nat, ghost id: nat)
      ensures this.task == task && this.generation == generation && this.id == id && !cancelled
    {
      this.task, this.generation, this.id, cancelled := task, generation, id, false;
    }
  }

  class Service {
    var store: map<string, A.Task>
    var running: map<string, RunningExecution>
    ghost var made: seq<RunningExecution>
    ghost var threads: seq<A.Pc>
    ghost var used: set<string>
    ghost var plans: set<A.Plan>
    ghost var approvals: seq<A.Approval>

    ghost predicate Valid()
      reads this
    {
      && (forall k :: 0 <= k < |made| ==> made[k].id == k)
      && (forall id :: id in running ==> running[id].id < |made| && made[running[id].id] == running[id])
    }

    ghost function Abs(): A.State
      reads this, made
    {
      A.State(store, map id | id in running :: running[id].id, Execs(made), threads, used, plans, approvals)
    }

    static ghost function Execs(made: seq<RunningExecution>): (execs: seq<A.Execution>)
      reads made
      ensures |execs| == |made|
      ensures forall k :: 0 <= k < |made| ==> execs[k] == A.Execution(made[k].task, made[k].generation, made[k].cancelled)
    {
      seq(|made|, k requires 0 <= k < |made| reads made => A.Execution(made[k].task, made[k].generation, made[k].cancelled))
    }

    /** The thread is carrying out this execution. */
    ghost predicate Has(i: nat, e: RunningExecution)
      reads this
    {
      i < |threads| && A.Executing(threads[i]) && threads[i].exec == e.id < |made| && made[e.id] == e
    }

    constructor (ghost n: nat)
      ensures Valid() && fresh(made) && A.Start(Abs()) && |threads| == n
    {
      store, running := map[], map[];
      made, threads, used, plans, approvals := [], seq(n, i => A.Idle), {}, {}, [];
    }

    method Create(id: string, enabled: bool, unattended: bool, readable: bool, saved: bool) returns (ok: bool)
      requires Valid() && id !in used
      modifies `store, `used
      ensures Valid() && Abs() == A.Next(old(Abs()), A.CreateTask(id, enabled, unattended, readable, saved))
      ensures ok <==> readable && saved
    {
      if !readable || !saved {
        return false;
      }
      store := store[id := A.Task(enabled, unattended, 1, [], "", "")];
      used := used + {id};
      return true;
    }

    /** Save a changed task: stop what is under way, keep the runs, start a new generation. */
    method Update(id: string, enabled: bool, unattended: bool, readable: bool, saved: bool) returns (ok: bool)
      requires Valid()
      modifies `store, made
      ensures Valid() && Abs() == A.Next(old(Abs()), A.UpdateTask(id, enabled, unattended, readable, saved))
      ensures ok <==> readable && id in old(store) && saved
    {
      if !readable || id !in store {
        return false;
      }
      CancelRunning(id);
      if !saved {
        return false;
      }
      var existing := store[id];
      store := store[id := existing.(enabled := enabled, unattended := unattended, generation := existing.generation + 1)];
      return true;
    }

    method CancelRunning(id: string)
      requires Valid()
      modifies made
      ensures Valid() && Abs() == A.CancelRunning(old(Abs()), id)
    {
      if id in running {
        running[id].cancelled := true;
        assert Abs().execs == A.CancelRunning(old(Abs()), id).execs;
      }
    }

    method Delete(id: string, readable: bool, removed: bool) returns (ok: bool)
      requires Valid()
      modifies `store, made
      ensures Valid() && Abs() == A.Next(old(Abs()), A.DeleteTask(id, readable, removed))
      ensures ok <==> readable && id in old(store) && removed
    {
      if !readable || id !in store {
        return false;
      }
      CancelRunning(id);
      if !removed {
        return false;
      }
      store := store - {id};
      return true;
    }

    /** The first record of a run. */
    static method FindRecord(history: seq<A.Record>, run: string) returns (index: Option<nat>)
      ensures index == A.FindRecord(history, run)
    {
      var i := 0;
      while i < |history| && history[i].run != run
        invariant i <= |history|
        invariant A.FindRecord(history, run) == Shifted(A.FindRecord(history[i..], run), i)
      {
        i := i + 1;
      }
      return if i < |history| then Some(i) else None;
    }

    static function Shifted(index: Option<nat>, n: nat): Option<nat> {
      if index.None? then None else Some(index.value + n)
    }

    /** Approve a run by hand: the runner is asked only for a run of the task's present generation. */
    method ApproveRun(id: string, run: string, readable: bool, answer: A.Run, saved: bool) returns (ok: bool)
      requires Valid()
      modifies `store, `approvals
      ensures Valid() && Abs() == A.Next(old(Abs()), A.ApproveRun(id, run, readable, answer, saved))
      ensures ok <==> readable && A.Approvable(old(Abs()), id, run) && !answer.failed && saved
    {
      if !readable || id !in store || !store[id].enabled {
        return false;
      }
      var value := store[id];
      var index := FindRecord(value.history, run);
      A.FoundHasRun(value.history, run);
      if index.None? {
        return false;
      }
      var record := value.history[index.value];
      if record.status != A.AWAITING || record.generation != value.generation {
        return false;
      }
      approvals := approvals + [A.Approval(A.Plan(id, value.generation, run), false)];
      if answer.failed || !saved {
        return false;
      }
      value := value.(history := value.history[index.value := record.(status := answer.status)],
                      lastStatus := if value.lastRun == run then answer.status else value.lastStatus);
      store := store[id := value];
      return true;
    }

    /** Register an execution, unless the task changed since it was loaded or one is registered. */
    method Begin(id: string, value: A.Task, readable: bool, ghost i: nat) returns (execution: RunningExecution?)
      requires Valid() && i < |threads| && threads[i] == A.Loaded(id, value)
      modifies `running, `made, `threads
      ensures Valid() && Abs() == A.Next(old(Abs()), A.BeginExecution(i, readable))
      ensures execution != null ==> fresh(execution) && Has(i, execution) && threads[i].Planning?
      ensures execution == null ==> threads[i] == A.Idle
    {
      if !readable || id !in store || !store[id].enabled || store[id].generation != value.generation || id in running {
        threads := threads[i := A.Idle];
        return null;
      }
      execution := Register(id, value, i);
    }

    method Register(id: string, value: A.Task, ghost i: nat) returns (execution: RunningExecution)
      requires Valid() && i < |threads|
      modifies `running, `made, `threads
      ensures Valid() && fresh(execution) && execution.id == |old(made)| && made == old(made) + [execution]
      ensures threads == old(threads)[i := A.Planning(execution.id, value)]
      ensures Abs() == old(Abs()).(threads := threads, running := old(Abs()).running[id := execution.id],
                execs := old(Abs()).execs + [A.Execution(id, value.generation, false)])
    {
      execution := new RunningExecution(id, value.generation, |made|);
      running := running[id := execution];
      made := made + [execution];
      threads := threads[i := A.Planning(execution.id, value)];
      assert Abs().execs == old(Abs()).execs + [A.Execution(id, value.generation, false)];
      assert Abs().running == old(Abs()).running[id := execution.id];
    }

    /** Approve the execution's own run, unless the task changed or the execution is no longer registered. */
    method ApproveUnattended(execution: RunningExecution, readable: bool, answer: A.Run, ghost i: nat) returns (approved: bool)
      requires Valid() && Has(i, execution) && threads[i].Approving?
      modifies `threads, `approvals
      ensures Valid() && Abs() == A.Next(old(Abs()), A.ApproveUnattended(i, readable, answer))
      ensures approved <==> A.MayApprove(old(Abs()), execution.id, readable) && !answer.failed
    {
      ghost var run := threads[i].run;
      ghost var value := threads[i].value;
      if execution.task !in running || running[execution.task] != execution || !readable
         || execution.task !in store || !store[execution.task].enabled
         || store[execution.task].generation != execution.generation || !store[execution.task].unattended {
        threads := threads[i := A.Recording(execution.id, value, A.Run(run.id, A.FAILED, true))];
        return false;
      }
      approvals := approvals + [A.Approval(A.Plan(execution.task, execution.generation, run.id), true)];
      threads := threads[i := A.Recording(execution.id, value,
                                          if answer.failed then A.Run(run.id, A.FAILED, true) else A.Run(run.id, answer.status, false))];
      return !answer.failed;
    }

    /** Put the run in front of the task's history, unless the task changed or the execution is no longer registered. */
    method RecordRun(execution: RunningExecution, value: A.Task, run: A.Run, readable: bool, saved: bool, ghost i: nat) returns (ok: bool)
      requires Valid() && Has(i, execution) && threads[i] == A.Recording(execution.id, value, run)
      modifies `threads, `store
      ensures Valid() && Abs() == A.Next(old(Abs()), A.RecordRun(i, readable, saved))
      ensures ok <==> A.MayRecord(old(Abs()), execution.id, readable, saved)
    {
      threads := threads[i := A.Ending(execution.id)];
      if execution.task !in running || running[execution.task] != execution || !readable
         || execution.task !in store || store[execution.task].generation != execution.generation {
        return false;
      }
      var current := store[execution.task];
      var record := A.RecordOf(value, run, current.generation);
      current := current.(lastRun := run.id, lastStatus := record.status, history := A.AppendRunHistory(current.history, record));
      if !saved {
        return false;
      }
      store := store[execution.task := current];
      return true;
    }

    method End(execution: RunningExecution, ghost i: nat)
      requires Valid() && Has(i, execution) && threads[i].Ending?
      modifies `threads, `running, execution
      ensures Valid() && Abs() == A.Next(old(Abs()), A.EndExecution(i))
    {
      ghost var target := A.Ended(Abs(), i);
      if execution.task in running && running[execution.task] == execution {
        Unregister(execution.task);
      }
      execution.cancelled := true;
      threads := threads[i := A.Idle];
      assert Abs().execs == target.execs;
    }

    method Unregister(id: string)
      requires Valid()
      modifies `running
      ensures Valid() && Abs() == old(Abs()).(running := old(Abs()).running - {id})
    {
      running := running - {id};
      assert Abs().running == old(Abs()).running - {id};
    }
  }
}
