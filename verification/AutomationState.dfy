/**
 Tasks carried out by the agent, as atomic steps: each mutex section of the service is one step, the
 runner and the store answer as they please. Every save of a task starts a new generation.
 */
module AutomationState {
  import opened Options

  const MAX_RUN_HISTORY := 50
  const AWAITING := "awaiting_approval"
  const FAILED := "failed"
  const EXECUTED := "executed"

  datatype Record = Record(run: string, status: string, generation: nat, autoApproved: bool)

  datatype Task = Task(enabled: bool, unattended: bool, generation: nat, history: seq<Record>, lastRun: string, lastStatus: string)

  /** One execution of a task, from its begin to its end; `cancelled` says that its context was cancelled. */
  datatype Execution = Execution(task: string, generation: nat, cancelled: bool)

  /** What the runner answered: the id and the status of its run, and whether it failed. */
  datatype Run = Run(id: string, status: string, failed: bool)

  /** Where a thread that carries out a task stands; it keeps the task as it was when loaded. */
  datatype Pc =
    | Idle
    | Loaded(task: string, value: Task)
    | Planning(exec: nat, value: Task)
    | Approving(exec: nat, value: Task, run: Run)
    | Recording(exec: nat, value: Task, run: Run)
    | Ending(exec: nat)

  /** History: a run the runner planned for a task, and an approval the runner was given. */
  datatype Plan = Plan(task: string, generation: nat, run: string)

  datatype Approval = Approval(plan: Plan, automatic: bool)

  /** `used`, `plans` and `approvals` are history. */
  datatype State = State(store: map<string, Task>, running: map<string, nat>, execs: seq<Execution>, threads: seq<Pc>,
                         used: set<string>, plans: set<Plan>, approvals: seq<Approval>)

  datatype Move =
    | CreateTask(id: string, enabled: bool, unattended: bool, readable: bool, saved: bool)
    | UpdateTask(id: string, enabled: bool, unattended: bool, readable: bool, saved: bool)
    | DeleteTask(id: string, readable: bool, removed: bool)
    | ApproveRun(id: string, run: string, readable: bool, answer: Run, saved: bool)
    | Load(i: nat, id: string)
    | BeginExecution(i: nat, readable: bool)
    | StartRun(i: nat, answer: Run)
    | ApproveUnattended(i: nat, readable: bool, answer: Run)
    | RecordRun(i: nat, readable: bool, saved: bool)
    | EndExecution(i: nat)

  predicate Enabled(s: State, move: Move) {
    match move
    case CreateTask(id, _, _, _, _) => id !in s.used
    case UpdateTask(id, _, _, _, _) => true
    case DeleteTask(_, _, _) => true
    case ApproveRun(id, run, readable, answer, saved) => true
    case Load(i, id) => i < |s.threads| && s.threads[i] == Idle && id in s.store && s.store[id].enabled
    case BeginExecution(i, _) => i < |s.threads| && s.threads[i].Loaded?
    case StartRun(i, _) => i < |s.threads| && s.threads[i].Planning? && s.threads[i].exec < |s.execs|
    case ApproveUnattended(i, _, _) => i < |s.threads| && s.threads[i].Approving? && s.threads[i].exec < |s.execs|
    case RecordRun(i, _, _) => i < |s.threads| && s.threads[i].Recording? && s.threads[i].exec < |s.execs|
    case EndExecution(i) => i < |s.threads| && s.threads[i].Ending? && s.threads[i].exec < |s.execs|
  }

  function Next(s: State, move: Move): State
    requires Enabled(s, move)
  {
    match move
    case CreateTask(id, enabled, unattended, readable, saved) => Created(s, id, enabled, unattended, readable && saved)
    case UpdateTask(id, enabled, unattended, readable, saved) => if readable then Updated(s, id, enabled, unattended, saved) else s
    case DeleteTask(id, readable, removed) => if readable then Deleted(s, id, removed) else s
    case ApproveRun(id, run, readable, answer, saved) => if readable then Approved(s, id, run, answer, saved) else s
    case Load(i, id) => s.(threads := s.threads[i := Loaded(id, s.store[id])])
    case BeginExecution(i, readable) => Begun(s, i, readable)
    case StartRun(i, answer) => Started(s, i, answer)
    case ApproveUnattended(i, readable, answer) => AutoApproved(s, i, readable, answer)
    case RecordRun(i, readable, saved) => Recorded(s, i, readable, saved)
    case EndExecution(i) => Ended(s, i)
  }

  /** A new task, under an id that was never used. */
  function Created(s: State, id: string, enabled: bool, unattended: bool, saved: bool): State {
    if saved then s.(store := s.store[id := Task(enabled, unattended, 1, [], "", "")], used := s.used + {id}) else s
  }

  /** Cancel the execution under way, if any. */
  function CancelRunning(s: State, id: string): State {
    if id in s.running && s.running[id] < |s.execs| then
      s.(execs := s.execs[s.running[id] := s.execs[s.running[id]].(cancelled := true)])
    else s
  }

  /** A changed task keeps its runs and starts a new generation. */
  function Updated(s: State, id: string, enabled: bool, unattended: bool, saved: bool): State {
    if id !in s.store then s
    else
      var s' := CancelRunning(s, id);
      if !saved then s'
      else
        var t := s.store[id];
        s'.(store := s.store[id := t.(enabled := enabled, unattended := unattended, generation := t.generation + 1)])
  }

  function Deleted(s: State, id: string, removed: bool): State {
    if id !in s.store then s
    else
      var s' := CancelRunning(s, id);
      if removed then s'.(store := s.store - {id}) else s'
  }

  function FindRecord(history: seq<Record>, run: string): Option<nat> {
    if history == [] then None
    else if history[0].run == run then Some(0)
    else match FindRecord(history[1..], run)
         case None => None
         case Some(k) => Some(k + 1)
  }

  /** Whether the run is the one a person may approve now. */
  predicate Approvable(s: State, id: string, run: string) {
    && id in s.store && s.store[id].enabled
    && var k := FindRecord(s.store[id].history, run);
       k.Some? && k.value < |s.store[id].history|
       && s.store[id].history[k.value].status == AWAITING && s.store[id].history[k.value].generation == s.store[id].generation
  }

  /** A person approves a run of the task's present generation. */
  function Approved(s: State, id: string, run: string, answer: Run, saved: bool): State {
    if !Approvable(s, id, run) then s
    else
      var t := s.store[id];
      var k := FindRecord(t.history, run).value;
      var s' := s.(approvals := s.approvals + [Approval(Plan(id, t.generation, run), false)]);
      if answer.failed || !saved then s'
      else
        var t' := t.(history := t.history[k := t.history[k].(status := answer.status)],
                     lastStatus := if t.lastRun == run then answer.status else t.lastStatus);
        s'.(store := s.store[id := t'])
  }

  /** Start an execution, unless the task changed since it was loaded or is being carried out already. */
  function Begun(s: State, i: nat, readable: bool): State
    requires i < |s.threads| && s.threads[i].Loaded?
  {
    var id, value := s.threads[i].task, s.threads[i].value;
    if readable && id in s.store && s.store[id].enabled && s.store[id].generation == value.generation && id !in s.running then
      s.(running := s.running[id := |s.execs|], execs := s.execs + [Execution(id, value.generation, false)],
         threads := s.threads[i := Planning(|s.execs|, value)])
    else s.(threads := s.threads[i := Idle])
  }

  /** The runner plans; what it planned may go on to be approved at once. */
  function Started(s: State, i: nat, answer: Run): State
    requires i < |s.threads| && s.threads[i].Planning? && s.threads[i].exec < |s.execs|
  {
    var e, value := s.threads[i].exec, s.threads[i].value;
    var plan := Plan(s.execs[e].task, s.execs[e].generation, answer.id);
    s.(plans := if answer.status == AWAITING then s.plans + {plan} else s.plans,
       threads := s.threads[i := if !answer.failed && answer.status == AWAITING && value.unattended
                                 then Approving(e, value, answer) else Recording(e, value, answer)])
  }

  predicate Current(s: State, e: nat)
    requires e < |s.execs|
  {
    s.execs[e].task in s.running && s.running[s.execs[e].task] == e
  }

  /** Whether the service still lets this execution approve its own run. */
  predicate MayApprove(s: State, e: nat, readable: bool)
    requires e < |s.execs|
  {
    var id := s.execs[e].task;
    && Current(s, e) && readable
    && id in s.store && s.store[id].enabled && s.store[id].generation == s.execs[e].generation && s.store[id].unattended
  }

  /** The service approves the run itself; a refusal or a failure leaves the run as failed. The runner keeps the run's id. */
  function AutoApproved(s: State, i: nat, readable: bool, answer: Run): State
    requires i < |s.threads| && s.threads[i].Approving? && s.threads[i].exec < |s.execs|
  {
    var e, value, run := s.threads[i].exec, s.threads[i].value, s.threads[i].run;
    if MayApprove(s, e, readable) then
      var plan := Plan(s.execs[e].task, s.execs[e].generation, run.id);
      s.(approvals := s.approvals + [Approval(plan, true)],
         threads := s.threads[i := Recording(e, value, if answer.failed then Run(run.id, FAILED, true) else Run(run.id, answer.status, false))])
    else s.(threads := s.threads[i := Recording(e, value, Run(run.id, FAILED, true))])
  }

  function RecordOf(value: Task, run: Run, generation: nat): Record {
    var status := if run.failed && run.id == "" then FAILED else run.status;
    Record(run.id, status, generation, value.unattended && run.status == EXECUTED)
  }

  /** The newest run first, and no more than the limit. */
  function AppendRunHistory(history: seq<Record>, record: Record): (result: seq<Record>) {
    var all := [record] + history;
    if |all| > MAX_RUN_HISTORY then all[..MAX_RUN_HISTORY] else all
  }

  predicate MayRecord(s: State, e: nat, readable: bool, saved: bool)
    requires e < |s.execs|
  {
    var id := s.execs[e].task;
    Current(s, e) && readable && id in s.store && s.store[id].generation == s.execs[e].generation && saved
  }

  /** Write the run into the task's history, if the task is still of the execution's generation. */
  function Recorded(s: State, i: nat, readable: bool, saved: bool): State
    requires i < |s.threads| && s.threads[i].Recording? && s.threads[i].exec < |s.execs|
  {
    var e, run := s.threads[i].exec, s.threads[i].run;
    var s' := s.(threads := s.threads[i := Ending(e)]);
    if !MayRecord(s, e, readable, saved) then s'
    else
      var id := s.execs[e].task;
      var t := s.store[id];
      var record := RecordOf(s.threads[i].value, run, t.generation);
      s'.(store := s.store[id := t.(history := AppendRunHistory(t.history, record), lastRun := run.id, lastStatus := record.status)])
  }

  function Ended(s: State, i: nat): State
    requires i < |s.threads| && s.threads[i].Ending? && s.threads[i].exec < |s.execs|
  {
    var e := s.threads[i].exec;
    var id := s.execs[e].task;
    s.(running := if Current(s, e) then s.running - {id} else s.running,
       execs := s.execs[e := s.execs[e].(cancelled := true)], threads := s.threads[i := Idle])
  }

  // ----- the invariant -----

  /** A thread between the begin and the end of an execution. */
  predicate Executing(pc: Pc) {
    pc.Planning? || pc.Approving? || pc.Recording? || pc.Ending?
  }

  /** Its execution is the one registered for its task, and no other thread has it. */
  ghost predicate OwnsExecution(s: State, i: nat)
    requires i < |s.threads|
  {
    Executing(s.threads[i]) ==>
      && s.threads[i].exec < |s.execs| && Current(s, s.threads[i].exec)
      && forall j :: 0 <= j < |s.threads| && j != i && Executing(s.threads[j]) ==> s.threads[j].exec != s.threads[i].exec
  }

  ghost predicate ExecutionsOwned(s: State) {
    forall i :: 0 <= i < |s.threads| ==> OwnsExecution(s, i)
  }

  ghost predicate RunningExists(s: State) {
    forall id :: id in s.running ==> s.running[id] < |s.execs| && s.execs[s.running[id]].task == id
  }

  predicate Planned(s: State, e: nat, run: Run)
    requires e < |s.execs|
  {
    run.status == AWAITING ==> Plan(s.execs[e].task, s.execs[e].generation, run.id) in s.plans
  }

  /** Whatever awaits approval, in a thread's hands or in a task's history, was planned for its task in its generation. */
  ghost predicate AwaitingIsPlanned(s: State) {
    && (forall i :: 0 <= i < |s.threads| && (s.threads[i].Approving? || s.threads[i].Recording?) && s.threads[i].exec < |s.execs| ==>
          Planned(s, s.threads[i].exec, s.threads[i].run))
    && (forall i :: 0 <= i < |s.threads| && s.threads[i].Approving? ==> s.threads[i].run.status == AWAITING)
    && (forall id, k :: id in s.store && 0 <= k < |s.store[id].history| ==> RecordPlanned(s, id, s.store[id].history[k]))
  }

  predicate RecordPlanned(s: State, id: string, r: Record) {
    r.status == AWAITING ==> Plan(id, r.generation, r.run) in s.plans
  }

  /** A task is registered as running only while some thread carries it out. */
  ghost predicate RunningOwned(s: State) {
    forall id :: id in s.running ==> CarriedOut(s, s.running[id])
  }

  ghost predicate CarriedOut(s: State, e: nat) {
    exists i :: 0 <= i < |s.threads| && Executing(s.threads[i]) && s.threads[i].exec == e
  }

  /** No stored history is longer than the limit. */
  predicate WithinLimit(s: State) {
    forall id :: id in s.store ==> |s.store[id].history| <= MAX_RUN_HISTORY
  }

  ghost predicate Inv(s: State) {
    WithinLimit(s) && ExecutionsOwned(s) && RunningExists(s) && RunningOwned(s) && AwaitingIsPlanned(s) && s.store.Keys <= s.used
  }

  // ----- every step keeps it -----

  /** Changes to the store and to contexts leave executions and their registration alone. */
  predicate SameExecutions(s: State, s': State) {
    && s'.threads == s.threads && s'.running == s.running && |s'.execs| == |s.execs|
    && forall e :: 0 <= e < |s.execs| ==> s'.execs[e].task == s.execs[e].task && s'.execs[e].generation == s.execs[e].generation
  }

  lemma SameExecutionsKeepInv(s: State, s': State)
    requires Inv(s) && SameExecutions(s, s')
    ensures ExecutionsOwned(s') && RunningExists(s') && RunningOwned(s')
  {
    forall i | 0 <= i < |s'.threads|
      ensures OwnsExecution(s', i)
    {
      assert OwnsExecution(s, i);
    }
    forall id | id in s'.running
      ensures CarriedOut(s', s'.running[id])
    {
      assert CarriedOut(s, s.running[id]);
    }
  }

  /** Changes that neither add awaiting runs nor forget plans. */
  lemma SameAwaiting(s: State, s': State)
    requires Inv(s) && SameExecutions(s, s') && s'.plans == s.plans
    requires forall id, k :: id in s'.store && 0 <= k < |s'.store[id].history| ==> RecordPlanned(s', id, s'.store[id].history[k])
    ensures AwaitingIsPlanned(s')
  {
    forall i | 0 <= i < |s'.threads| && (s'.threads[i].Approving? || s'.threads[i].Recording?) && s'.threads[i].exec < |s'.execs|
      ensures Planned(s', s'.threads[i].exec, s'.threads[i].run)
    {
      assert Planned(s, s.threads[i].exec, s.threads[i].run);
    }
  }

  predicate ChangesTask(move: Move) {
    move.CreateTask? || move.UpdateTask? || move.DeleteTask?
  }

  lemma TaskChangeKeepsRuns(s: State, move: Move)
    requires Inv(s) && Enabled(s, move) && ChangesTask(move)
    ensures var s' := Next(s, move);
            && SameExecutions(s, s') && s'.plans == s.plans && s'.approvals == s.approvals && s'.store.Keys <= s'.used
            && forall id :: id in s'.store ==> s'.store[id].history == if id in s.store then s.store[id].history else []
  {
  }

  lemma TaskChangeKeepsInv(s: State, move: Move)
    requires Inv(s) && Enabled(s, move) && ChangesTask(move)
    ensures Inv(Next(s, move))
  {
    var s' := Next(s, move);
    TaskChangeKeepsRuns(s, move);
    forall id, k | id in s'.store && 0 <= k < |s'.store[id].history|
      ensures RecordPlanned(s', id, s'.store[id].history[k])
    {
      assert id in s.store && s'.store[id].history == s.store[id].history;
      assert RecordPlanned(s, id, s.store[id].history[k]);
    }
    SameExecutionsKeepInv(s, s');
    SameAwaiting(s, s');
  }

  lemma ApproveRunKeepsInv(s: State, id: string, run: string, answer: Run, saved: bool)
    requires Inv(s)
    ensures Inv(Approved(s, id, run, answer, saved))
  {
    var s' := Approved(s, id, run, answer, saved);
    forall other, k | other in s'.store && 0 <= k < |s'.store[other].history|
      ensures RecordPlanned(s', other, s'.store[other].history[k])
    {
      assert RecordPlanned(s, other, s.store[other].history[k]);
    }
    SameExecutionsKeepInv(s, s');
    SameAwaiting(s, s');
  }

  /** A thread moves on within or outside an execution; tasks, registration and plans stay. */
  lemma ThreadMoveKeepsInv(s: State, i: nat, pc: Pc)
    requires Inv(s) && i < |s.threads| && Executing(pc) == Executing(s.threads[i])
    requires Executing(pc) ==> pc.exec == s.threads[i].exec
    requires pc.Approving? || pc.Recording? ==> pc.exec < |s.execs| && Planned(s, pc.exec, pc.run)
    requires pc.Approving? ==> pc.run.status == AWAITING
    ensures Inv(s.(threads := s.threads[i := pc]))
  {
    var s' := s.(threads := s.threads[i := pc]);
    forall j | 0 <= j < |s'.threads|
      ensures OwnsExecution(s', j)
    {
      assert OwnsExecution(s, j);
    }
    forall id | id in s'.running
      ensures CarriedOut(s', s'.running[id])
    {
      assert CarriedOut(s, s.running[id]);
      var j :| 0 <= j < |s.threads| && Executing(s.threads[j]) && s.threads[j].exec == s.running[id];
      assert Executing(s'.threads[j]) && s'.threads[j].exec == s.running[id];
    }
    forall id, k | id in s'.store && 0 <= k < |s'.store[id].history|
      ensures RecordPlanned(s', id, s'.store[id].history[k])
    {
      assert RecordPlanned(s, id, s.store[id].history[k]);
    }
  }

  lemma BeginKeepsInv(s: State, i: nat, readable: bool)
    requires Inv(s) && Enabled(s, BeginExecution(i, readable))
    ensures Inv(Begun(s, i, readable))
  {
    var s' := Begun(s, i, readable);
    if s'.execs == s.execs {
      ThreadMoveKeepsInv(s, i, Idle);
    } else {
      var id := s.threads[i].task;
      forall j | 0 <= j < |s.threads| && Executing(s.threads[j])
        ensures s.threads[j].exec < |s.execs| && s.execs[s.threads[j].exec].task != id
      {
        assert OwnsExecution(s, j);
      }
      forall j | 0 <= j < |s'.threads|
        ensures OwnsExecution(s', j)
      {
        assert OwnsExecution(s, j);
      }
      forall other | other in s'.running
        ensures CarriedOut(s', s'.running[other])
      {
        if other == id {
          assert Executing(s'.threads[i]) && s'.threads[i].exec == s'.running[id];
        } else {
          assert CarriedOut(s, s.running[other]);
          var j :| 0 <= j < |s.threads| && Executing(s.threads[j]) && s.threads[j].exec == s.running[other];
          assert Executing(s'.threads[j]) && s'.threads[j].exec == s.running[other];
        }
      }
      BeginKeepsPlans(s, i, readable);
    }
  }

  lemma BeginKeepsPlans(s: State, i: nat, readable: bool)
    requires Inv(s) && Enabled(s, BeginExecution(i, readable))
    ensures AwaitingIsPlanned(Begun(s, i, readable))
  {
    var s' := Begun(s, i, readable);
    forall j | 0 <= j < |s'.threads| && (s'.threads[j].Approving? || s'.threads[j].Recording?) && s'.threads[j].exec < |s'.execs|
      ensures Planned(s', s'.threads[j].exec, s'.threads[j].run)
    {
      assert OwnsExecution(s, j) && Planned(s, s.threads[j].exec, s.threads[j].run);
    }
    forall id, k | id in s'.store && 0 <= k < |s'.store[id].history|
      ensures RecordPlanned(s', id, s'.store[id].history[k])
    {
      assert RecordPlanned(s, id, s.store[id].history[k]);
    }
  }

  lemma MorePlansKeepInv(s: State, plans: set<Plan>)
    requires Inv(s) && s.plans <= plans
    ensures Inv(s.(plans := plans))
  {
    var s' := s.(plans := plans);
    SameExecutionsKeepInv(s, s');
    forall i | 0 <= i < |s'.threads| && (s'.threads[i].Approving? || s'.threads[i].Recording?) && s'.threads[i].exec < |s'.execs|
      ensures Planned(s', s'.threads[i].exec, s'.threads[i].run)
    {
      assert Planned(s, s.threads[i].exec, s.threads[i].run);
    }
    forall id, k | id in s'.store && 0 <= k < |s'.store[id].history|
      ensures RecordPlanned(s', id, s'.store[id].history[k])
    {
      assert RecordPlanned(s, id, s.store[id].history[k]);
    }
  }

  lemma StartKeepsInv(s: State, i: nat, answer: Run)
    requires Inv(s) && Enabled(s, StartRun(i, answer))
    ensures Inv(Started(s, i, answer))
  {
    var s' := Started(s, i, answer);
    MorePlansKeepInv(s, s'.plans);
    ThreadMoveKeepsInv(s.(plans := s'.plans), i, s'.threads[i]);
  }

  lemma MoreApprovalsKeepInv(s: State, approvals: seq<Approval>)
    requires Inv(s)
    ensures Inv(s.(approvals := approvals))
  {
    var s' := s.(approvals := approvals);
    SameExecutionsKeepInv(s, s');
    forall id, k | id in s'.store && 0 <= k < |s'.store[id].history|
      ensures RecordPlanned(s', id, s'.store[id].history[k])
    {
      assert RecordPlanned(s, id, s.store[id].history[k]);
    }
    SameAwaiting(s, s');
  }

  lemma AutoApproveKeepsInv(s: State, i: nat, readable: bool, answer: Run)
    requires Inv(s) && Enabled(s, ApproveUnattended(i, readable, answer))
    ensures Inv(AutoApproved(s, i, readable, answer))
  {
    var s' := AutoApproved(s, i, readable, answer);
    assert Planned(s, s.threads[i].exec, s.threads[i].run);
    MoreApprovalsKeepInv(s, s'.approvals);
    ThreadMoveKeepsInv(s.(approvals := s'.approvals), i, s'.threads[i]);
  }

  lemma RecordKeepsInv(s: State, i: nat, readable: bool, saved: bool)
    requires Inv(s) && Enabled(s, RecordRun(i, readable, saved))
    ensures Inv(Recorded(s, i, readable, saved))
  {
    var s' := Recorded(s, i, readable, saved);
    var between := s.(store := s'.store);
    forall id, k | id in between.store && 0 <= k < |between.store[id].history|
      ensures RecordPlanned(between, id, between.store[id].history[k])
    {
      RecordedHistoryIsPlanned(s, i, readable, saved, id, k);
    }
    SameExecutionsKeepInv(s, between);
    SameAwaiting(s, between);
    ThreadMoveKeepsInv(between, i, s'.threads[i]);
  }

  lemma RecordedHistoryIsPlanned(s: State, i: nat, readable: bool, saved: bool, id: string, k: nat)
    requires Inv(s) && Enabled(s, RecordRun(i, readable, saved))
    requires id in s.store && id in Recorded(s, i, readable, saved).store && k < |Recorded(s, i, readable, saved).store[id].history|
    ensures RecordPlanned(s, id, Recorded(s, i, readable, saved).store[id].history[k])
  {
    var s' := Recorded(s, i, readable, saved);
    var e := s.threads[i].exec;
    if MayRecord(s, e, readable, saved) && id == s.execs[e].task {
      if k == 0 {
        assert Planned(s, e, s.threads[i].run);
      } else {
        assert s'.store[id].history[k] == s.store[id].history[k - 1];
        assert RecordPlanned(s, id, s.store[id].history[k - 1]);
      }
    } else {
      assert RecordPlanned(s, id, s.store[id].history[k]);
    }
  }

  lemma EndKeepsInv(s: State, i: nat)
    requires Inv(s) && Enabled(s, EndExecution(i))
    ensures Inv(Ended(s, i))
  {
    var s', e := Ended(s, i), s.threads[i].exec;
    forall j | 0 <= j < |s'.threads|
      ensures OwnsExecution(s', j)
    {
      assert OwnsExecution(s, j) && OwnsExecution(s, i);
    }
    forall id | id in s'.running
      ensures CarriedOut(s', s'.running[id])
    {
      assert OwnsExecution(s, i) && CarriedOut(s, s.running[id]);
      var j :| 0 <= j < |s.threads| && Executing(s.threads[j]) && s.threads[j].exec == s.running[id];
      assert j != i;
      assert Executing(s'.threads[j]) && s'.threads[j].exec == s.running[id];
    }
    EndKeepsPlans(s, i);
  }

  lemma EndKeepsPlans(s: State, i: nat)
    requires Inv(s) && Enabled(s, EndExecution(i))
    ensures AwaitingIsPlanned(Ended(s, i))
  {
    var s' := Ended(s, i);
    forall j | 0 <= j < |s'.threads| && (s'.threads[j].Approving? || s'.threads[j].Recording?) && s'.threads[j].exec < |s'.execs|
      ensures Planned(s', s'.threads[j].exec, s'.threads[j].run)
    {
      assert Planned(s, s.threads[j].exec, s.threads[j].run);
    }
    forall id, k | id in s'.store && 0 <= k < |s'.store[id].history|
      ensures RecordPlanned(s', id, s'.store[id].history[k])
    {
      assert RecordPlanned(s, id, s.store[id].history[k]);
    }
  }

  /** Every step keeps the invariant. */
  lemma NextKeepsInv(s: State, move: Move)
    requires Inv(s) && Enabled(s, move)
    ensures Inv(Next(s, move))
  {
    match move
    case CreateTask(_, _, _, _, _) => TaskChangeKeepsInv(s, move);
    case UpdateTask(_, _, _, _, _) => TaskChangeKeepsInv(s, move);
    case DeleteTask(_, _, _) => TaskChangeKeepsInv(s, move);
    case ApproveRun(id, run, _, answer, saved) => ApproveRunKeepsInv(s, id, run, answer, saved);
    case Load(i, id) => ThreadMoveKeepsInv(s, i, Loaded(id, s.store[id]));
    case BeginExecution(i, readable) => BeginKeepsInv(s, i, readable);
    case StartRun(i, answer) => StartKeepsInv(s, i, answer);
    case ApproveUnattended(i, readable, answer) => AutoApproveKeepsInv(s, i, readable, answer);
    case RecordRun(i, readable, saved) => RecordKeepsInv(s, i, readable, saved);
    case EndExecution(i) => EndKeepsInv(s, i);
  }

  // ----- whole runs -----

  predicate Start(s: State) {
    s.store == map[] && s.running == map[] && s.execs == [] && s.used == {} && s.plans == {} && s.approvals == []
    && forall i :: 0 <= i < |s.threads| ==> s.threads[i] == Idle
  }

  /** Any interleaving of tasks being changed, approved and carried out. */
  ghost predicate IsRun(states: seq<State>, moves: seq<Move>) {
    && |states| == |moves| + 1 && Start(states[0])
    && forall k :: 0 <= k < |moves| ==> Enabled(states[k], moves[k]) && states[k + 1] == Next(states[k], moves[k])
  }

  lemma {:induction false} RunInvariant(states: seq<State>, moves: seq<Move>, k: nat)
    requires IsRun(states, moves) && k < |states|
    ensures Inv(states[k])
  {
    if k > 0 {
      RunInvariant(states, moves, k - 1);
      NextKeepsInv(states[k - 1], moves[k - 1]);
    }
  }

  /** What an approval must be when it is given. */
  ghost predicate ApprovedNow(s: State, a: Approval) {
    && a.plan in s.plans && a.plan.task in s.store && s.store[a.plan.task].enabled
    && s.store[a.plan.task].generation == a.plan.generation
    && (a.automatic ==> s.store[a.plan.task].unattended && a.plan.task in s.running)
  }

  /**
   Every approval, by hand or automatic, is of a run that was planned for the task in the generation the
   store holds at that moment, with the task enabled.
   */
  lemma ApprovalsAreCurrent(states: seq<State>, moves: seq<Move>, k: nat)
    requires IsRun(states, moves) && k < |moves|
    ensures states[k + 1].approvals == states[k].approvals
         || (exists a :: states[k + 1].approvals == states[k].approvals + [a] && ApprovedNow(states[k], a))
  {
    RunInvariant(states, moves, k);
    var s, move := states[k], moves[k];
    if move.ApproveRun? {
      if move.readable && Approvable(s, move.id, move.run) {
        var r := FindRecord(s.store[move.id].history, move.run).value;
        FoundHasRun(s.store[move.id].history, move.run);
        assert RecordPlanned(s, move.id, s.store[move.id].history[r]);
        var a := Approval(Plan(move.id, s.store[move.id].generation, move.run), false);
        assert states[k + 1].approvals == s.approvals + [a] && ApprovedNow(s, a);
      }
    } else if move.ApproveUnattended? {
      var e := s.threads[move.i].exec;
      if MayApprove(s, e, move.readable) {
        assert Planned(s, e, s.threads[move.i].run);
        var a := Approval(Plan(s.execs[e].task, s.execs[e].generation, s.threads[move.i].run.id), true);
        assert states[k + 1].approvals == s.approvals + [a] && ApprovedNow(s, a);
      }
    } else if ChangesTask(move) {
      TaskChangeKeepsRuns(s, move);
    }
  }

  lemma {:induction false} FoundHasRun(history: seq<Record>, run: string)
    ensures FindRecord(history, run).Some? ==>
              FindRecord(history, run).value < |history| && history[FindRecord(history, run).value].run == run
  {
    if history != [] && history[0].run != run {
      FoundHasRun(history[1..], run);
    }
  }

  /** No two threads ever carry out one task at the same time. */
  lemma OneExecutionPerTask(states: seq<State>, moves: seq<Move>, k: nat, i: nat, j: nat)
    requires IsRun(states, moves) && k < |states| && i < |states[k].threads| && j < |states[k].threads|
    requires Executing(states[k].threads[i]) && Executing(states[k].threads[j])
    ensures states[k].threads[i].exec < |states[k].execs| && states[k].threads[j].exec < |states[k].execs|
    ensures states[k].execs[states[k].threads[i].exec].task == states[k].execs[states[k].threads[j].exec].task ==> i == j
  {
    RunInvariant(states, moves, k);
    assert OwnsExecution(states[k], i) && OwnsExecution(states[k], j);
  }

  /** A task is turned away as running already only while a thread carries it out. */
  lemma RefusedOnlyWhileRunning(states: seq<State>, moves: seq<Move>, k: nat, id: string) returns (i: nat)
    requires IsRun(states, moves) && k < |states| && id in states[k].running
    ensures i < |states[k].threads| && Executing(states[k].threads[i]) && states[k].threads[i].exec < |states[k].execs|
    ensures states[k].execs[states[k].threads[i].exec].task == id
  {
    RunInvariant(states, moves, k);
    var s := states[k];
    assert CarriedOut(s, s.running[id]);
    i :| 0 <= i < |s.threads| && Executing(s.threads[i]) && s.threads[i].exec == s.running[id];
  }

  // ----- history -----

  /** Records that differ at most in how their run ended. */
  predicate SameRun(r: Record, r': Record) {
    r'.run == r.run && r'.generation == r.generation && r'.autoApproved == r.autoApproved
  }

  predicate SameRuns(h: seq<Record>, h': seq<Record>) {
    |h'| == |h| && forall k :: 0 <= k < |h| ==> SameRun(h[k], h'[k])
  }

  /** How one step may change a task that exists before and after it. */
  ghost predicate TaskStep(s: State, move: Move, t: Task, t': Task) {
    || t' == t
    || (move.UpdateTask? && t'.generation == t.generation + 1 && t'.history == t.history
        && t'.lastRun == t.lastRun && t'.lastStatus == t.lastStatus)
    || (move.ApproveRun? && t'.generation == t.generation && SameRuns(t.history, t'.history))
    || (move.RecordRun? && t'.generation == t.generation
        && exists r :: t'.history == AppendRunHistory(t.history, r) && r.generation == t.generation)
  }

  /**
   A task's runs are never lost but to the limit: saving keeps them, approving keeps which they are, and
   recording puts one in front, of the task's present generation. Only saving changes the generation, by one.
   */
  lemma HistoryIsKept(states: seq<State>, moves: seq<Move>, k: nat, id: string)
    requires IsRun(states, moves) && k < |moves| && id in states[k].store && id in states[k + 1].store
    ensures TaskStep(states[k], moves[k], states[k].store[id], states[k + 1].store[id])
  {
    RunInvariant(states, moves, k);
    var s, move := states[k], moves[k];
    if move.RecordRun? && MayRecord(s, s.threads[move.i].exec, move.readable, move.saved) && s.execs[s.threads[move.i].exec].task == id {
      var r := RecordOf(s.threads[move.i].value, s.threads[move.i].run, s.store[id].generation);
      assert states[k + 1].store[id].history == AppendRunHistory(s.store[id].history, r) && r.generation == s.store[id].generation;
    }
  }

  lemma {:induction false} FoundIsFirst(history: seq<Record>, run: string, j: nat)
    requires FindRecord(history, run).Some? && j < FindRecord(history, run).value && j < |history|
    ensures history[j].run != run
  {
    if j > 0 {
      FoundIsFirst(history[1..], run, j - 1);
    }
  }

  /** A run approved by hand shows the runner's answer in its first record, and nothing else in the history changes. */
  lemma ApprovalIsShown(s: State, id: string, run: string, answer: Run) returns (k: nat)
    requires Approvable(s, id, run) && !answer.failed
    ensures var t, t' := s.store[id], Approved(s, id, run, answer, true).store[id];
            && k < |t.history| && t.history[k].run == run && (forall j :: 0 <= j < k ==> t.history[j].run != run)
            && |t'.history| == |t.history| && t'.history[k] == t.history[k].(status := answer.status)
            && (forall j :: 0 <= j < |t.history| && j != k ==> t'.history[j] == t.history[j])
            && t'.enabled == t.enabled && t'.unattended == t.unattended && t'.generation == t.generation
    ensures forall other :: other in s.store && other != id ==> Approved(s, id, run, answer, true).store[other] == s.store[other]
  {
    var h := s.store[id].history;
    FoundHasRun(h, run);
    k := FindRecord(h, run).value;
    forall j | 0 <= j < k
      ensures h[j].run != run
    {
      FoundIsFirst(h, run, j);
    }
  }

  // ----- the stop boundary -----

  /** The task was deleted, or has been saved since generation g. */
  predicate Superseded(s: State, id: string, g: nat) {
    id in s.used && (id in s.store ==> s.store[id].generation > g)
  }

  lemma SupersededStays(s: State, move: Move, id: string, g: nat)
    requires Inv(s) && Enabled(s, move) && Superseded(s, id, g)
    ensures Superseded(Next(s, move), id, g)
  {
  }

  lemma {:induction false} SupersededForever(states: seq<State>, moves: seq<Move>, k: nat, later: nat, id: string, g: nat)
    requires IsRun(states, moves) && k <= later < |states| && Superseded(states[k], id, g)
    ensures Superseded(states[later], id, g)
  {
    if k < later {
      SupersededForever(states, moves, k, later - 1, id, g);
      RunInvariant(states, moves, later - 1);
      SupersededStays(states[later - 1], moves[later - 1], id, g);
    }
  }

  /** The thread that makes a move within an execution. */
  predicate MovesExecution(s: State, move: Move, e: nat) {
    && (move.ApproveUnattended? || move.RecordRun?)
    && move.i < |s.threads| && Executing(s.threads[move.i]) && s.threads[move.i].exec == e
  }

  /**
   Updating or deleting a task is a stop boundary: from then on, no execution of an earlier generation
   has a run approved or writes the task's history, and no earlier plan is approved by hand.
   */
  lemma StopBoundary(states: seq<State>, moves: seq<Move>, k: nat, later: nat, id: string, g: nat)
    requires IsRun(states, moves) && k <= later < |moves| && Superseded(states[k], id, g)
    ensures forall e :: 0 <= e < |states[later].execs| && MovesExecution(states[later], moves[later], e)
                        && states[later].execs[e].task == id && states[later].execs[e].generation <= g ==>
              states[later + 1].store == states[later].store && states[later + 1].approvals == states[later].approvals
    ensures forall a :: states[later + 1].approvals == states[later].approvals + [a] && a.plan.task == id ==> a.plan.generation > g
  {
    SupersededForever(states, moves, k, later, id, g);
    ApprovalsAreCurrent(states, moves, later);
    forall a, b | states[later + 1].approvals == states[later].approvals + [a] && states[later + 1].approvals == states[later].approvals + [b]
      ensures a == b
    {
      assert (states[later].approvals + [a])[|states[later].approvals|] == a;
      assert (states[later].approvals + [b])[|states[later].approvals|] == b;
    }
  }

  /** Saving a task makes its earlier generations superseded, and so does deleting it. */
  lemma SavingSupersedes(states: seq<State>, moves: seq<Move>, k: nat, id: string)
    requires IsRun(states, moves) && k < |moves| && id in states[k].store
    requires (moves[k].UpdateTask? && moves[k].id == id && moves[k].readable && moves[k].saved)
          || (moves[k].DeleteTask? && moves[k].id == id && moves[k].readable && moves[k].removed)
    ensures Superseded(states[k + 1], id, states[k].store[id].generation)
  {
    RunInvariant(states, moves, k);
  }

  /**
   Over every run, recording puts one run of the present generation in front and drops none but the
   oldest, and that only at the limit.
   */
  lemma HistoryKeepsNewest(states: seq<State>, moves: seq<Move>, k: nat, id: string)
    requires IsRun(states, moves) && k < |moves| && moves[k].RecordRun? && id in states[k].store && id in states[k + 1].store
    requires states[k + 1].store[id] != states[k].store[id]
    ensures var h, h' := states[k].store[id].history, states[k + 1].store[id].history;
            && |h| <= MAX_RUN_HISTORY && |h'| == (if |h| < MAX_RUN_HISTORY then |h| + 1 else MAX_RUN_HISTORY)
            && h'[0].generation == states[k].store[id].generation && h'[1..] == h[..|h'| - 1]
  {
    RunInvariant(states, moves, k);
    var s, i := states[k], moves[k].i;
    assert MayRecord(s, s.threads[i].exec, moves[k].readable, moves[k].saved) && s.execs[s.threads[i].exec].task == id;
  }
}
