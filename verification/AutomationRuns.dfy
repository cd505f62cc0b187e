/**
 How a task is saved and carried out, step by step and from end to end: what each step writes, said with
 the fields of tasks, records and runs, and when a planned run can be approved.
 */
module AutomationRuns {
  import opened Options
  import opened AutomationState

  /** Whatever is under way for the task is cancelled, and no other execution is. */
  predicate CancelsOnly(s: State, s': State, id: string) {
    && |s'.execs| == |s.execs|
    && forall e :: 0 <= e < |s.execs| ==>
         s'.execs[e] == if id in s.running && s.running[id] == e then s.execs[e].(cancelled := true) else s.execs[e]
  }

  // ----- saving -----

  /** A task is stored as it was given, in its first generation and without runs. */
  lemma CreatedAsGiven(s: State, id: string, enabled: bool, unattended: bool, readable: bool, saved: bool)
    requires Enabled(s, CreateTask(id, enabled, unattended, readable, saved))
    ensures var s' := Next(s, CreateTask(id, enabled, unattended, readable, saved));
            if readable && saved then
              && id in s'.store && s'.store == s.store[id := s'.store[id]]
              && s'.store[id].enabled == enabled && s'.store[id].unattended == unattended && s'.store[id].generation == 1
              && s'.store[id].history == [] && s'.store[id].lastRun == "" && s'.store[id].lastStatus == ""
              && s' == s.(store := s'.store, used := s.used + {id})
            else s' == s
  {
  }

  /** A changed task has the settings it was given, the next generation and its old runs; what is under way is cancelled. */
  lemma UpdatedAsGiven(s: State, id: string, enabled: bool, unattended: bool, saved: bool)
    requires id in s.store && RunningExists(s)
    ensures var s' := Next(s, UpdateTask(id, enabled, unattended, true, saved));
            && CancelsOnly(s, s', id) && s' == s.(store := s'.store, execs := s'.execs) && s'.store == s.store[id := s'.store[id]]
            && if saved then
                 && s'.store[id].enabled == enabled && s'.store[id].unattended == unattended
                 && s'.store[id].generation == s.store[id].generation + 1 && s'.store[id].history == s.store[id].history
                 && s'.store[id].lastRun == s.store[id].lastRun && s'.store[id].lastStatus == s.store[id].lastStatus
               else s'.store == s.store
  {
  }

  /** A deleted task is gone, and what is under way is cancelled. */
  lemma DeletedAndCancelled(s: State, id: string, removed: bool)
    requires id in s.store && RunningExists(s)
    ensures var s' := Next(s, DeleteTask(id, true, removed));
            && CancelsOnly(s, s', id) && s' == s.(store := s'.store, execs := s'.execs)
            && s'.store.Keys == (if removed then s.store.Keys - {id} else s.store.Keys)
            && forall other :: other in s'.store ==> s'.store[other] == s.store[other]
  {
  }

  // ----- carrying out -----

  /** The task is as it was when the thread loaded it, and nothing carries it out. */
  predicate Startable(s: State, id: string, value: Task) {
    id in s.store && s.store[id].enabled && s.store[id].generation == value.generation && id !in s.running
  }

  /** An execution starts exactly if the task is still the one that was loaded and is not being carried out. */
  lemma BeginsIfStartable(s: State, i: nat, id: string, value: Task)
    requires i < |s.threads| && s.threads[i] == Loaded(id, value)
    ensures var s' := Next(s, BeginExecution(i, true));
            if Startable(s, id, value) then
              && s'.execs == s.execs + [Execution(task := id, generation := value.generation, cancelled := false)]
              && s'.running == s.running[id := |s.execs|] && s'.threads == s.threads[i := Planning(|s.execs|, value)]
              && s' == s.(execs := s'.execs, running := s'.running, threads := s'.threads)
            else s' == s.(threads := s.threads[i := Idle])
  {
  }

  /** A run that awaits approval goes on to be approved exactly for an unattended task; every other answer is recorded as it came. */
  lemma PlannedOrRecorded(s: State, i: nat, e: nat, value: Task, answer: Run)
    requires i < |s.threads| && s.threads[i] == Planning(e, value) && e < |s.execs|
    ensures var s' := Next(s, StartRun(i, answer));
            && s'.threads == s.threads[i := if value.unattended && answer.status == "awaiting_approval" && !answer.failed
                                            then Approving(e, value, answer) else Recording(e, value, answer)]
            && s' == s.(threads := s'.threads, plans := s'.plans)
            && (answer.status == "awaiting_approval" ==> Plan(s.execs[e].task, s.execs[e].generation, answer.id) in s'.plans)
  {
  }

  /** The task the execution is for is still stored as it was begun, and the execution is still registered. */
  predicate StillIts(s: State, e: nat)
    requires e < |s.execs|
  {
    var id := s.execs[e].task;
    id in s.running && s.running[id] == e && id in s.store && s.store[id].generation == s.execs[e].generation
  }

  /** The runner is asked to approve exactly for a task that is still the one it began with, enabled and unattended; else the run has failed. */
  lemma ApprovedOrFailed(s: State, i: nat, e: nat, value: Task, run: Run, readable: bool, answer: Run)
    requires i < |s.threads| && s.threads[i] == Approving(e, value, run) && e < |s.execs|
    ensures var s', id := Next(s, ApproveUnattended(i, readable, answer)), s.execs[e].task;
            var asked := readable && StillIts(s, e) && s.store[id].enabled && s.store[id].unattended;
            var ended := if asked && !answer.failed then Run(run.id, answer.status, false) else Run(run.id, "failed", true);
            && s'.threads == s.threads[i := Recording(e, value, ended)]
            && s'.approvals == (if asked then s.approvals + [Approval(Plan(id, s.execs[e].generation, run.id), true)] else s.approvals)
            && s' == s.(threads := s'.threads, approvals := s'.approvals)
  {
  }

  /** What a record says of a run of a task. */
  predicate Tells(r: Record, value: Task, run: Run, generation: nat) {
    && r.run == run.id && r.generation == generation
    && r.status == (if run.failed && run.id == "" then "failed" else run.status)
    && (r.autoApproved <==> value.unattended && run.status == "executed")
  }

  /**
   Exactly if the task is still the one the execution began with, its run becomes the first record and the last run, and at
   most fifty records stay; no other task changes.
   */
  lemma RecordsTheRun(s: State, i: nat, e: nat, value: Task, run: Run, readable: bool, saved: bool)
    requires i < |s.threads| && s.threads[i] == Recording(e, value, run) && e < |s.execs|
    ensures var s', id := Next(s, RecordRun(i, readable, saved)), s.execs[e].task;
            && s' == s.(store := s'.store, threads := s.threads[i := Ending(e)])
            && if readable && saved && StillIts(s, e) then
                 var t, t' := s.store[id], s'.store[id];
                 && s'.store == s.store[id := t']
                 && t' == t.(history := t'.history, lastRun := run.id, lastStatus := t'.lastStatus)
                 && t'.history != [] && Tells(t'.history[0], value, run, t.generation) && t'.lastStatus == t'.history[0].status
                 && t'.history[1..] == t.history[..if |t.history| < 50 then |t.history| else 49]
               else s'.store == s.store
  {
  }

  /** At its end an execution is cancelled, and its registration is given up if it is its own. */
  lemma EndsItsOwn(s: State, i: nat, e: nat)
    requires i < |s.threads| && s.threads[i] == Ending(e) && e < |s.execs|
    ensures var s', id := Next(s, EndExecution(i)), s.execs[e].task;
            && s'.threads == s.threads[i := Idle] && s'.execs == s.execs[e := s.execs[e].(cancelled := true)]
            && s'.running == (if id in s.running && s.running[id] == e then s.running - {id} else s.running)
            && s' == s.(threads := s'.threads, execs := s'.execs, running := s'.running)
  {
  }

  // ----- approving by hand -----

  /** The first record of the run awaits approval, and is of the task's present generation. */
  ghost predicate AwaitsAPerson(s: State, id: string, run: string, k: nat) {
    && id in s.store && s.store[id].enabled && k < |s.store[id].history|
    && s.store[id].history[k].run == run && (forall j :: 0 <= j < k ==> s.store[id].history[j].run != run)
    && s.store[id].history[k].status == "awaiting_approval" && s.store[id].history[k].generation == s.store[id].generation
  }

  lemma {:induction false} FindsFirst(history: seq<Record>, run: string, k: nat)
    requires k < |history| && history[k].run == run && forall j :: 0 <= j < k ==> history[j].run != run
    ensures FindRecord(history, run) == Some(k)
  {
    if k > 0 { FindsFirst(history[1..], run, k - 1); }
  }

  /** A person may approve exactly the runs whose first record awaits it. */
  lemma ApprovableExactlyIf(s: State, id: string, run: string)
    ensures Approvable(s, id, run) <==> exists k: nat :: AwaitsAPerson(s, id, run, k)
  {
    if Approvable(s, id, run) {
      var h := s.store[id].history;
      FoundHasRun(h, run);
      var k := FindRecord(h, run).value;
      forall j | 0 <= j < k ensures h[j].run != run { FoundIsFirst(h, run, j); }
      assert AwaitsAPerson(s, id, run, k);
    }
    if k: nat :| AwaitsAPerson(s, id, run, k) {
      FindsFirst(s.store[id].history, run, k);
    }
  }

  /** A run recorded as awaiting approval can be approved by hand. */
  lemma RecordedCanBeApproved(s: State, i: nat, e: nat, value: Task, run: Run)
    requires i < |s.threads| && s.threads[i] == Recording(e, value, run) && e < |s.execs| && StillIts(s, e)
    requires s.store[s.execs[e].task].enabled && run.status == "awaiting_approval" && !(run.failed && run.id == "")
    ensures Approvable(Next(s, RecordRun(i, true, true)), s.execs[e].task, run.id)
  {
    RecordsTheRun(s, i, e, value, run, true, true);
    FindsFirst(Next(s, RecordRun(i, true, true)).store[s.execs[e].task].history, run.id, 0);
  }

  /** The move records another run, and the record at k is not pushed over the limit by it. */
  predicate LeavesRoom(s: State, move: Move, run: string, k: nat) {
    move.RecordRun? ==> k < 49 && move.i < |s.threads| && s.threads[move.i].Recording? && s.threads[move.i].run.id != run
  }

  /** It stays approvable until the task is saved or deleted, the run is answered, or its record is pushed out. */
  lemma StaysApprovable(s: State, move: Move, id: string, run: string, k: nat) returns (k': nat)
    requires Inv(s) && Enabled(s, move) && AwaitsAPerson(s, id, run, k) && LeavesRoom(s, move, run, k)
    requires !(ChangesTask(move) && move.id == id) && !(move.ApproveRun? && move.id == id && move.run == run)
    ensures AwaitsAPerson(Next(s, move), id, run, k')
  {
    k' := k;
    if move.RecordRun? {
      k' := StaysWhenRecorded(s, move, id, run, k);
    } else if move.ApproveRun? {
      OtherRunsStay(s, move, id, run, k);
    } else {
      OtherMovesKeepTask(s, move, id);
    }
  }

  lemma OtherMovesKeepTask(s: State, move: Move, id: string)
    requires Inv(s) && Enabled(s, move) && id in s.store
    requires !move.RecordRun? && !move.ApproveRun? && !(ChangesTask(move) && move.id == id)
    ensures id in Next(s, move).store && Next(s, move).store[id] == s.store[id]
  {
  }

  lemma StaysWhenRecorded(s: State, move: Move, id: string, run: string, k: nat) returns (k': nat)
    requires Enabled(s, move) && move.RecordRun? && AwaitsAPerson(s, id, run, k) && LeavesRoom(s, move, run, k)
    ensures AwaitsAPerson(Next(s, move), id, run, k')
  {
    var e, ran := s.threads[move.i].exec, s.threads[move.i].run;
    RecordsTheRun(s, move.i, e, s.threads[move.i].value, ran, move.readable, move.saved);
    k' := k;
    if move.readable && move.saved && StillIts(s, e) && s.execs[e].task == id {
      k' := k + 1;
      ShiftedByOne(s.store[id].history, Next(s, move).store[id].history, k);
      StillFirst(s.store[id].history, Next(s, move).store[id].history, run, k);
    }
  }

  lemma StillFirst(h: seq<Record>, h': seq<Record>, run: string, k: nat)
    requires k < |h| && h[k].run == run && (forall j :: 0 <= j < k ==> h[j].run != run)
    requires k + 1 < |h'| && h'[0].run != run && forall j :: 0 <= j <= k ==> h'[j + 1] == h[j]
    ensures h'[k + 1] == h[k] && forall j :: 0 <= j < k + 1 ==> h'[j].run != run
  {
    forall j | 0 < j < k + 1
      ensures h'[j].run != run
    {
      assert h'[j - 1 + 1] == h[j - 1];
    }
  }

  lemma ShiftedByOne(h: seq<Record>, h': seq<Record>, k: nat)
    requires h' != [] && k < |h| && k < 49 && h'[1..] == h[..if |h| < 50 then |h| else 49]
    ensures k + 1 < |h'| && forall j :: 0 <= j <= k ==> h'[j + 1] == h[j]
  {
    forall j | 0 <= j <= k
      ensures j < |h'[1..]| && h'[j + 1] == h[j]
    {
      assert h'[1..][j] == h[j];
    }
  }

  lemma OtherRunsStay(s: State, move: Move, id: string, run: string, k: nat)
    requires Enabled(s, move) && move.ApproveRun? && AwaitsAPerson(s, id, run, k) && !(move.id == id && move.run == run)
    ensures AwaitsAPerson(Next(s, move), id, run, k)
  {
    if move.readable && Approvable(s, move.id, move.run) && move.id == id {
      FoundHasRun(s.store[id].history, move.run);
    }
  }

  // ----- from end to end -----

  /** The steps of one thread that carries out a task with nothing in between. */
  function Carried(s: State, i: nat, id: string, answer: Run): (s': State)
    requires i < |s.threads| && s.threads[i] == Idle && id in s.store && s.store[id].enabled && id !in s.running && !s.store[id].unattended
    ensures |s'.threads| == |s.threads|
  {
    var loaded := Next(s, Load(i, id));
    var begun := Next(loaded, BeginExecution(i, true));
    var started := Next(begun, StartRun(i, answer));
    var recorded := Next(started, RecordRun(i, true, true));
    Next(recorded, EndExecution(i))
  }

  /**
   An enabled task that nothing carries out can be carried out: its run is then its first record, the task is
   free again, and a run that awaits approval can be approved by hand, after which the record has the answer.
   */
  lemma PlannedThenApproved(s: State, i: nat, id: string, answer: Run, reply: Run)
    requires Inv(s) && i < |s.threads| && s.threads[i] == Idle && id in s.store && s.store[id].enabled && id !in s.running
    requires !s.store[id].unattended
    ensures var s' := Carried(s, i, id, answer);
            && id in s'.store && id !in s'.running && s'.threads == s.threads
            && s'.store[id].history != [] && Tells(s'.store[id].history[0], s.store[id], answer, s.store[id].generation)
            && (answer.status == "awaiting_approval" && !answer.failed && !reply.failed ==>
                  var after := Next(s', ApproveRun(id, answer.id, true, reply, true));
                  && Approvable(s', id, answer.id) && id in after.store && after.store[id].history != []
                  && after.store[id].history[0].run == answer.id && after.store[id].history[0].status == reply.status
                  && after.store[id].lastRun == answer.id && after.store[id].lastStatus == reply.status)
  {
    var s' := Carried(s, i, id, answer);
    assert s'.threads == s.threads && s'.running == s.running;
    if answer.status == "awaiting_approval" && !answer.failed {
      FindsFirst(s'.store[id].history, answer.id, 0);
    }
  }

  /** The steps of one thread that carries out an unattended task whose run awaits approval. */
  function CarriedUnattended(s: State, i: nat, id: string, answer: Run, reply: Run): (s': State)
    requires i < |s.threads| && s.threads[i] == Idle && id in s.store && s.store[id].enabled && id !in s.running && s.store[id].unattended
    requires answer.status == "awaiting_approval" && !answer.failed
  {
    var loaded := Next(s, Load(i, id));
    var begun := Next(loaded, BeginExecution(i, true));
    var started := Next(begun, StartRun(i, answer));
    var approved := Next(started, ApproveUnattended(i, true, reply));
    Next(Next(approved, RecordRun(i, true, true)), EndExecution(i))
  }

  /** An unattended task has its awaiting run approved at once; its record has the runner's reply, or says that it failed. */
  lemma PlannedThenExecuted(s: State, i: nat, id: string, answer: Run, reply: Run)
    requires Inv(s) && i < |s.threads| && s.threads[i] == Idle && id in s.store && s.store[id].enabled && id !in s.running
    requires s.store[id].unattended && answer.status == "awaiting_approval" && !answer.failed
    ensures var s', g := CarriedUnattended(s, i, id, answer, reply), s.store[id].generation;
            && id in s'.store && id !in s'.running && s'.threads == s.threads && s'.store[id].history != []
            && s'.approvals == s.approvals + [Approval(Plan(id, g, answer.id), true)]
            && var r := s'.store[id].history[0];
               && r.run == answer.id && r.generation == g
               && r.status == (if reply.failed then "failed" else reply.status)
               && (r.autoApproved <==> !reply.failed && reply.status == "executed")
  {
    var s' := CarriedUnattended(s, i, id, answer, reply);
    assert s'.threads == s.threads && s'.running == s.running;
  }
}
