/**
 Property writes that share one provider call: callers asking for the value that is already being
 written join that write, callers asking for another value replace it. Each mutex section and each
 call into the tracker is one step of one of any number of threads.
 */
module PropertyOperations {
  import opened Values
  import C = CommandState

  /**
   One write. `command` is the id of its command, empty until the tracker gave one; `closes` is how
   often its done channel was closed. `issued` and `credited` are history: the id it was given, and
   how many joins have been added to that command.
   */
  datatype Operation = Operation(key: C.Slot, expected: PropertyValue, joins: nat, command: string,
                                 cancelled: bool, closes: nat, issued: string, credited: nat)

  datatype Pc =
    | Idle
    | Owning(op: nat)
    | Assigning(op: nat, id: string)
    | Writing(op: nat)
    | Crediting(op: nat, id: string, amount: nat, joined: bool)
    | Waiting(op: nat)

  /**
   `counts` is the coalesced count of every command the tracker retains; `used` and `replays` are
   history: the ids ever given out, and how often the tracker itself joined a write to a command.
   */
  datatype State = State(threads: seq<Pc>, current: map<C.Slot, nat>, heap: seq<Operation>,
                         counts: map<string, nat>, used: set<string>, replays: map<string, nat>)

  datatype Move =
    | Begin(key: C.Slot, value: PropertyValue)
    | TrackerBegin(id: string, replayed: bool)
    | SetCommand
    | Credit
    | Finish(result: string)
    | Leave
    | TrackerAction(id: string)
    | Evict(id: string)

  predicate Enabled(s: State, i: nat, move: Move) {
    && i < |s.threads|
    && (s.threads[i] != Idle ==> s.threads[i].op < |s.heap|)
    && CanMake(s, s.threads[i], move)
  }

  predicate CanMake(s: State, pc: Pc, move: Move) {
    match move
    case Begin(key, value) => pc == Idle && (key in s.current ==> s.current[key] < |s.heap|)
    case TrackerBegin(id, replayed) => pc.Owning? && id != "" && (if replayed then id in s.counts && id in s.replays else id !in s.used)
    case SetCommand => pc.Assigning?
    case Credit => pc.Crediting?
    case Finish(result) => pc.Owning? || pc.Writing?
    case Leave => pc.Waiting?
    case TrackerAction(id) => id != "" && id !in s.used
    case Evict(id) => true
  }

  function Next(s: State, i: nat, move: Move): State
    requires Enabled(s, i, move)
  {
    match move
    case Begin(key, value) => Begun(s, i, key, value)
    case TrackerBegin(id, replayed) => Tracked(s, i, id, replayed)
    case SetCommand => Assigned(s, i)
    case Credit => Credited(s, i)
    case Finish(result) => Finished(s, i, result)
    case Leave => s.(threads := s.threads[i := Idle])
    case TrackerAction(id) => Actioned(s, id)
    case Evict(id) => s.(counts := s.counts - {id})
  }

  /** Whether a write for this value would join the one under way. */
  predicate Joins(s: State, key: C.Slot, value: PropertyValue)
    requires key in s.current ==> s.current[key] < |s.heap|
  {
    key in s.current && s.heap[s.current[key]].expected.Equal(value)
  }

  function NewOperation(key: C.Slot, value: PropertyValue): Operation {
    Operation(key, value, 0, "", false, 0, "", 0)
  }

  /** Join the operation under way for the same value, or cancel and replace it. */
  function Begun(s: State, i: nat, key: C.Slot, value: PropertyValue): State
    requires i < |s.threads| && (key in s.current ==> s.current[key] < |s.heap|)
  {
    if Joins(s, key, value) then
      var o := s.current[key];
      var id := s.heap[o].command;
      s.(heap := s.heap[o := s.heap[o].(joins := s.heap[o].joins + 1)],
         threads := s.threads[i := if id != "" then Crediting(o, id, 1, true) else Waiting(o)])
    else
      var heap := if key in s.current then s.heap[s.current[key] := s.heap[s.current[key]].(cancelled := true)] else s.heap;
      s.(heap := heap + [NewOperation(key, value)], current := s.current[key := |s.heap|],
         threads := s.threads[i := Owning(|s.heap|)])
  }

  /** The tracker starts a command, or joins the write to one it has. */
  function Tracked(s: State, i: nat, id: string, replayed: bool): State
    requires i < |s.threads| && s.threads[i].Owning? && (replayed ==> id in s.counts && id in s.replays)
  {
    var s' := s.(threads := s.threads[i := Assigning(s.threads[i].op, id)], used := s.used + {id});
    if replayed then s'.(counts := s.counts[id := s.counts[id] + 1], replays := s.replays[id := s.replays[id] + 1])
    else s'.(counts := s.counts[id := 0], replays := s.replays[id := 0])
  }

  /** The tracker starts a command that is no property write. */
  function Actioned(s: State, id: string): State {
    s.(counts := s.counts[id := 0], used := s.used + {id}, replays := s.replays[id := 0])
  }

  /** Publish the command id; the joins counted so far are still to be added to it. */
  function Assigned(s: State, i: nat): State
    requires i < |s.threads| && s.threads[i].Assigning? && s.threads[i].op < |s.heap|
  {
    var o, id := s.threads[i].op, s.threads[i].id;
    s.(heap := s.heap[o := s.heap[o].(command := id, issued := id)],
       threads := s.threads[i := if s.heap[o].joins > 0 then Crediting(o, id, s.heap[o].joins, false) else Writing(o)])
  }

  /** Add joins to the command, if the tracker still has it. */
  function Credited(s: State, i: nat): State
    requires i < |s.threads| && s.threads[i].Crediting? && s.threads[i].op < |s.heap|
  {
    var pc := s.threads[i];
    s.(heap := s.heap[pc.op := s.heap[pc.op].(credited := s.heap[pc.op].credited + pc.amount)],
       counts := Added(s.counts, pc.id, pc.amount),
       threads := s.threads[i := if pc.joined then Waiting(pc.op) else Writing(pc.op)])
  }

  function Added(counts: map<string, nat>, id: string, amount: nat): map<string, nat> {
    if id in counts then counts[id := counts[id] + amount] else counts
  }

  /** Store the result, clear the entry if it is this operation's own, cancel, and close. */
  function Finished(s: State, i: nat, result: string): State
    requires i < |s.threads| && s.threads[i] != Idle && s.threads[i].op < |s.heap|
  {
    var o := s.threads[i].op;
    var done := s.heap[o].(command := result, cancelled := true, closes := s.heap[o].closes + 1);
    var key := s.heap[o].key;
    s.(heap := s.heap[o := done], threads := s.threads[i := Idle],
       current := if key in s.current && s.current[key] == o then s.current - {key} else s.current)
  }

  // ----- sums over threads and operations -----

  datatype Role = Owner(op: nat) | InFlight(op: nat)

  predicate Owns(pc: Pc) {
    pc.Owning? || pc.Assigning? || pc.Writing? || (pc.Crediting? && !pc.joined)
  }

  function Weight(role: Role, pc: Pc): nat {
    match role
    case Owner(o) => if Owns(pc) && pc.op == o then 1 else 0
    case InFlight(o) => if pc.Crediting? && pc.op == o then pc.amount else 0
  }

  function Sum(role: Role, threads: seq<Pc>): nat {
    if threads == [] then 0 else Weight(role, threads[0]) + Sum(role, threads[1..])
  }

  lemma {:induction false} SumAfterMove(role: Role, threads: seq<Pc>, i: nat, pc: Pc)
    requires i < |threads|
    ensures Sum(role, threads[i := pc]) == Sum(role, threads) - Weight(role, threads[i]) + Weight(role, pc)
  {
    if i == 0 {
      assert threads[0 := pc][1..] == threads[1..];
    } else {
      SumAfterMove(role, threads[1..], i - 1, pc);
      assert threads[i := pc][1..] == threads[1..][i - 1 := pc];
    }
  }

  lemma {:induction false} NoWeight(role: Role, threads: seq<Pc>)
    requires forall i :: 0 <= i < |threads| ==> Weight(role, threads[i]) == 0
    ensures Sum(role, threads) == 0
  {
    if threads != [] {
      assert Weight(role, threads[0]) == 0;
      NoWeight(role, threads[1..]);
    }
  }

  lemma {:induction false} SomeWeight(role: Role, threads: seq<Pc>, i: nat)
    requires i < |threads|
    ensures Sum(role, threads) >= Weight(role, threads[i])
  {
    if i > 0 {
      SomeWeight(role, threads[1..], i - 1);
    }
  }

  lemma {:induction false} TwoWeights(role: Role, threads: seq<Pc>, i: nat, j: nat)
    requires i < j < |threads|
    ensures Sum(role, threads) >= Weight(role, threads[i]) + Weight(role, threads[j])
  {
    if i > 0 {
      TwoWeights(role, threads[1..], i - 1, j - 1);
    } else {
      SomeWeight(role, threads[1..], j - 1);
    }
  }

  lemma {:induction false} WhoHasWeight(role: Role, threads: seq<Pc>) returns (i: nat)
    requires Sum(role, threads) >= 1
    ensures i < |threads| && Weight(role, threads[i]) >= 1
  {
    if Weight(role, threads[0]) >= 1 {
      i := 0;
    } else {
      i := WhoHasWeight(role, threads[1..]);
      i := i + 1;
    }
  }

  function Share(op: Operation, id: string): nat {
    if op.issued == id then op.credited else 0
  }

  /** What all operations together have added to one command. */
  function Total(heap: seq<Operation>, id: string): nat {
    if heap == [] then 0 else Share(heap[|heap| - 1], id) + Total(heap[..|heap| - 1], id)
  }

  lemma {:induction false} TotalAfterUpdate(heap: seq<Operation>, o: nat, op: Operation, id: string)
    requires o < |heap|
    ensures Total(heap[o := op], id) == Total(heap, id) - Share(heap[o], id) + Share(op, id)
  {
    var last := |heap| - 1;
    if o == last {
      assert heap[o := op][..last] == heap[..last];
    } else {
      TotalAfterUpdate(heap[..last], o, op, id);
      assert heap[o := op][..last] == heap[..last][o := op];
    }
  }

  lemma TotalAfterAppend(heap: seq<Operation>, op: Operation, id: string)
    ensures Total(heap + [op], id) == Total(heap, id) + Share(op, id)
  {
    assert (heap + [op])[..|heap|] == heap;
  }

  lemma {:induction false} TotalOfUnused(heap: seq<Operation>, id: string)
    requires forall o :: 0 <= o < |heap| ==> Share(heap[o], id) == 0
    ensures Total(heap, id) == 0
  {
    if heap != [] {
      assert Share(heap[|heap| - 1], id) == 0;
      TotalOfUnused(heap[..|heap| - 1], id);
    }
  }

  // ----- the invariant -----

  /** The table holds operations that are neither finished nor cancelled, each under its own key. */
  ghost predicate TableLive(s: State) {
    forall k :: k in s.current ==>
      && s.current[k] < |s.heap| && s.heap[s.current[k]].key == k
      && s.heap[s.current[k]].closes == 0 && !s.heap[s.current[k]].cancelled
  }

  predicate InTable(s: State, o: nat)
    requires o < |s.heap|
  {
    s.heap[o].key in s.current && s.current[s.heap[o].key] == o
  }

  /**
   An operation has one owner until it is closed, and is closed once; the joins it counted have been
   added to its command, are on their way there, or wait for it to be known.
   */
  ghost predicate OperationKept(s: State, o: nat)
    requires o < |s.heap|
  {
    var op := s.heap[o];
    && op.closes + Sum(Owner(o), s.threads) == 1
    && (op.closes == 0 ==> op.command == op.issued)
    && (op.closes == 0 && !op.cancelled ==> InTable(s, o))
    && (if op.issued == "" then op.credited == 0 && Sum(InFlight(o), s.threads) == 0
        else op.joins == op.credited + Sum(InFlight(o), s.threads))
  }

  ghost predicate OperationsKept(s: State) {
    forall o :: 0 <= o < |s.heap| ==> OperationKept(s, o)
  }

  predicate Sound(s: State, pc: Pc) {
    && (pc != Idle ==> pc.op < |s.heap|)
    && (pc.Owning? || pc.Assigning? ==> s.heap[pc.op].issued == "")
    && (pc.Assigning? ==> pc.id in s.used && pc.id != "")
    && (pc.Crediting? ==> pc.id == s.heap[pc.op].issued && pc.id != "")
  }

  ghost predicate ThreadsSound(s: State) {
    forall i :: 0 <= i < |s.threads| ==> Sound(s, s.threads[i])
  }

  /** A retained command's count is what the tracker joined itself plus what the operations added. */
  ghost predicate CountsAddUp(s: State) {
    && (forall o :: 0 <= o < |s.heap| && s.heap[o].issued != "" ==> s.heap[o].issued in s.used)
    && "" !in s.used && s.counts.Keys <= s.used && s.counts.Keys <= s.replays.Keys
    && (forall id :: id in s.counts ==> s.counts[id] == s.replays[id] + Total(s.heap, id))
  }

  ghost predicate Inv(s: State) {
    TableLive(s) && OperationsKept(s) && ThreadsSound(s) && CountsAddUp(s)
  }

  // ----- every step keeps it -----

  lemma BeginKeepsTable(s: State, i: nat, key: C.Slot, value: PropertyValue)
    requires Inv(s) && Enabled(s, i, Begin(key, value))
    ensures TableLive(Begun(s, i, key, value)) && ThreadsSound(Begun(s, i, key, value))
  {
    var s' := Begun(s, i, key, value);
    if Joins(s, key, value) {
      assert OperationKept(s, s.current[key]);
    }
    forall j | 0 <= j < |s'.threads|
      ensures Sound(s', s'.threads[j])
    {
      if j != i { assert Sound(s, s.threads[j]); }
    }
  }

  lemma JoinKeepsOperations(s: State, i: nat, key: C.Slot, value: PropertyValue)
    requires Inv(s) && Enabled(s, i, Begin(key, value)) && Joins(s, key, value)
    ensures OperationsKept(Begun(s, i, key, value))
  {
    var s' := Begun(s, i, key, value);
    forall o | 0 <= o < |s'.heap|
      ensures OperationKept(s', o)
    {
      SumAfterMove(Owner(o), s.threads, i, s'.threads[i]);
      SumAfterMove(InFlight(o), s.threads, i, s'.threads[i]);
      assert OperationKept(s, o);
    }
  }

  lemma ReplaceKeepsOperations(s: State, i: nat, key: C.Slot, value: PropertyValue)
    requires Inv(s) && Enabled(s, i, Begin(key, value)) && !Joins(s, key, value)
    ensures OperationsKept(Begun(s, i, key, value))
  {
    var s' := Begun(s, i, key, value);
    forall o | 0 <= o < |s'.heap|
      ensures OperationKept(s', o)
    {
      SumAfterMove(Owner(o), s.threads, i, s'.threads[i]);
      SumAfterMove(InFlight(o), s.threads, i, s'.threads[i]);
      if o < |s.heap| {
        assert OperationKept(s, o);
      } else {
        NothingYet(s, o);
      }
    }
  }

  /** No thread refers to an operation that does not exist yet. */
  lemma NothingYet(s: State, o: nat)
    requires ThreadsSound(s) && o >= |s.heap|
    ensures Sum(Owner(o), s.threads) == 0 && Sum(InFlight(o), s.threads) == 0
  {
    assert forall i :: 0 <= i < |s.threads| ==> Sound(s, s.threads[i]);
    NoWeight(Owner(o), s.threads);
    NoWeight(InFlight(o), s.threads);
  }

  lemma BeginKeepsCounts(s: State, i: nat, key: C.Slot, value: PropertyValue)
    requires Inv(s) && Enabled(s, i, Begin(key, value))
    ensures CountsAddUp(Begun(s, i, key, value))
  {
    var s' := Begun(s, i, key, value);
    forall id | id in s'.counts
      ensures s'.counts[id] == s'.replays[id] + Total(s'.heap, id)
    {
      assert id != "";
      if Joins(s, key, value) {
        TotalAfterUpdate(s.heap, s.current[key], s'.heap[s.current[key]], id);
      } else {
        TotalAfterAppend(s'.heap[..|s.heap|], NewOperation(key, value), id);
        assert s'.heap == s'.heap[..|s.heap|] + [NewOperation(key, value)];
        if key in s.current {
          var o := s.current[key];
          TotalAfterUpdate(s.heap, o, s.heap[o].(cancelled := true), id);
          assert s'.heap[..|s.heap|] == s.heap[o := s.heap[o].(cancelled := true)];
        } else {
          assert s'.heap[..|s.heap|] == s.heap;
        }
      }
    }
  }

  lemma TrackedKeepsInv(s: State, i: nat, id: string, replayed: bool)
    requires Inv(s) && Enabled(s, i, TrackerBegin(id, replayed))
    ensures Inv(Tracked(s, i, id, replayed))
  {
    var s' := Tracked(s, i, id, replayed);
    forall o | 0 <= o < |s'.heap|
      ensures OperationKept(s', o)
    {
      SumAfterMove(Owner(o), s.threads, i, s'.threads[i]);
      SumAfterMove(InFlight(o), s.threads, i, s'.threads[i]);
      assert OperationKept(s, o);
    }
    forall j | 0 <= j < |s'.threads|
      ensures Sound(s', s'.threads[j])
    {
      assert Sound(s, s.threads[j]);
    }
    if !replayed {
      TotalOfUnused(s.heap, id);
    }
  }

  lemma AssignedKeepsInv(s: State, i: nat)
    requires Inv(s) && Enabled(s, i, SetCommand)
    ensures Inv(Assigned(s, i))
  {
    var s', o := Assigned(s, i), s.threads[i].op;
    assert Sound(s, s.threads[i]) && OperationKept(s, o);
    AssignedKeepsOperations(s, i);
    forall j | 0 <= j < |s'.threads|
      ensures Sound(s', s'.threads[j])
    {
      assert Sound(s, s.threads[j]);
      if j != i && (s.threads[j].Owning? || s.threads[j].Assigning? || s.threads[j].Crediting?) && s.threads[j].op == o {
        OnlyUser(s, i, j);
      }
    }
    forall id | id in s'.counts
      ensures s'.counts[id] == s'.replays[id] + Total(s'.heap, id)
    {
      TotalAfterUpdate(s.heap, o, s'.heap[o], id);
    }
  }

  /** While an operation has no command, its owner is the only thread that works on it. */
  lemma OnlyUser(s: State, i: nat, j: nat)
    requires Inv(s) && i < |s.threads| && j < |s.threads| && i != j && s.threads[i].Assigning?
    requires s.threads[j].Owning? || s.threads[j].Assigning? || s.threads[j].Crediting?
    ensures s.threads[j].op != s.threads[i].op
  {
    var o := s.threads[i].op;
    assert Sound(s, s.threads[i]) && Sound(s, s.threads[j]) && OperationKept(s, o);
    if i < j { TwoWeights(Owner(o), s.threads, i, j); } else { TwoWeights(Owner(o), s.threads, j, i); }
  }

  lemma AssignedKeepsOperations(s: State, i: nat)
    requires Inv(s) && Enabled(s, i, SetCommand)
    ensures OperationsKept(Assigned(s, i))
  {
    var s' := Assigned(s, i);
    assert Sound(s, s.threads[i]);
    forall o | 0 <= o < |s'.heap|
      ensures OperationKept(s', o)
    {
      SumAfterMove(Owner(o), s.threads, i, s'.threads[i]);
      SumAfterMove(InFlight(o), s.threads, i, s'.threads[i]);
      assert OperationKept(s, o);
    }
  }

  lemma CreditedKeepsInv(s: State, i: nat)
    requires Inv(s) && Enabled(s, i, Credit)
    ensures Inv(Credited(s, i))
  {
    var s', o := Credited(s, i), s.threads[i].op;
    assert Sound(s, s.threads[i]);
    forall o | 0 <= o < |s'.heap|
      ensures OperationKept(s', o)
    {
      SumAfterMove(Owner(o), s.threads, i, s'.threads[i]);
      SumAfterMove(InFlight(o), s.threads, i, s'.threads[i]);
      SomeWeight(InFlight(o), s.threads, i);
      assert OperationKept(s, o);
    }
    forall j | 0 <= j < |s'.threads|
      ensures Sound(s', s'.threads[j])
    {
      assert Sound(s, s.threads[j]);
    }
    forall id | id in s'.counts
      ensures s'.counts[id] == s'.replays[id] + Total(s'.heap, id)
    {
      TotalAfterUpdate(s.heap, o, s'.heap[o], id);
    }
  }

  lemma FinishedKeepsInv(s: State, i: nat, result: string)
    requires Inv(s) && Enabled(s, i, Finish(result))
    ensures Inv(Finished(s, i, result))
  {
    var s', o := Finished(s, i, result), s.threads[i].op;
    assert Sound(s, s.threads[i]) && OperationKept(s, o);
    SomeWeight(Owner(o), s.threads, i);
    forall o | 0 <= o < |s'.heap|
      ensures OperationKept(s', o)
    {
      SumAfterMove(Owner(o), s.threads, i, s'.threads[i]);
      SumAfterMove(InFlight(o), s.threads, i, s'.threads[i]);
      assert OperationKept(s, o);
    }
    forall j | 0 <= j < |s'.threads|
      ensures Sound(s', s'.threads[j])
    {
      assert Sound(s, s.threads[j]);
    }
    forall id | id in s'.counts
      ensures s'.counts[id] == s'.replays[id] + Total(s'.heap, id)
    {
      TotalAfterUpdate(s.heap, o, s'.heap[o], id);
    }
  }

  lemma LeaveKeepsInv(s: State, i: nat)
    requires Inv(s) && Enabled(s, i, Leave)
    ensures Inv(Next(s, i, Leave))
  {
    var s' := Next(s, i, Leave);
    forall o | 0 <= o < |s'.heap|
      ensures OperationKept(s', o)
    {
      SumAfterMove(Owner(o), s.threads, i, Idle);
      SumAfterMove(InFlight(o), s.threads, i, Idle);
      assert OperationKept(s, o);
    }
    forall j | 0 <= j < |s'.threads|
      ensures Sound(s', s'.threads[j])
    {
      assert Sound(s, s.threads[j]);
    }
  }

  lemma ActionedKeepsInv(s: State, i: nat, id: string)
    requires Inv(s) && Enabled(s, i, TrackerAction(id))
    ensures Inv(Actioned(s, id))
  {
    var s' := Actioned(s, id);
    forall o | 0 <= o < |s'.heap|
      ensures OperationKept(s', o)
    {
      assert OperationKept(s, o);
    }
    forall j | 0 <= j < |s'.threads|
      ensures Sound(s', s'.threads[j])
    {
      assert Sound(s, s.threads[j]);
    }
    TotalOfUnused(s.heap, id);
  }

  lemma EvictKeepsInv(s: State, i: nat, id: string)
    requires Inv(s) && Enabled(s, i, Evict(id))
    ensures Inv(Next(s, i, Evict(id)))
  {
    var s' := Next(s, i, Evict(id));
    forall o | 0 <= o < |s'.heap|
      ensures OperationKept(s', o)
    {
      assert OperationKept(s, o);
    }
    forall j | 0 <= j < |s'.threads|
      ensures Sound(s', s'.threads[j])
    {
      assert Sound(s, s.threads[j]);
    }
  }

  /** Every step of every thread keeps the invariant. */
  lemma NextKeepsInv(s: State, i: nat, move: Move)
    requires Inv(s) && Enabled(s, i, move)
    ensures Inv(Next(s, i, move))
  {
    match move
    case Begin(key, value) =>
      BeginKeepsTable(s, i, key, value);
      if Joins(s, key, value) { JoinKeepsOperations(s, i, key, value); } else { ReplaceKeepsOperations(s, i, key, value); }
      BeginKeepsCounts(s, i, key, value);
    case TrackerBegin(id, replayed) => TrackedKeepsInv(s, i, id, replayed);
    case SetCommand => AssignedKeepsInv(s, i);
    case Credit => CreditedKeepsInv(s, i);
    case Finish(result) => FinishedKeepsInv(s, i, result);
    case Leave => LeaveKeepsInv(s, i);
    case TrackerAction(id) => ActionedKeepsInv(s, i, id);
    case Evict(id) => EvictKeepsInv(s, i, id);
  }

  // ----- whole runs -----

  /** No write under way; the tracker may already hold commands. */
  predicate Start(s: State) {
    && s.current == map[] && s.heap == [] && s.replays == s.counts && s.used == s.counts.Keys && "" !in s.used
    && forall i :: 0 <= i < |s.threads| ==> s.threads[i] == Idle
  }

  ghost predicate Steps(s: State, s': State) {
    exists i: nat, move :: Enabled(s, i, move) && s' == Next(s, i, move)
  }

  /** Any interleaving: at each point some thread makes some move it can make. */
  ghost predicate IsRun(states: seq<State>) {
    && |states| >= 1 && Start(states[0])
    && forall k :: 0 <= k < |states| - 1 ==> StepAt(states, k)
  }

  ghost predicate StepAt(states: seq<State>, k: nat)
    requires k + 1 < |states|
  {
    Steps(states[k], states[k + 1])
  }

  lemma {:induction false} RunInvariant(states: seq<State>, k: nat)
    requires IsRun(states) && k < |states|
    ensures Inv(states[k])
  {
    if k > 0 {
      RunInvariant(states, k - 1);
      assert StepAt(states, k - 1);
      var i: nat, move :| Enabled(states[k - 1], i, move) && states[k] == Next(states[k - 1], i, move);
      NextKeepsInv(states[k - 1], i, move);
    } else {
      assert forall id :: Total(states[0].heap, id) == 0;
    }
  }

  /** Whoever joins, joins an operation for an equal value that is neither finished nor replaced, and is counted once. */
  lemma JoinsUnfinished(states: seq<State>, k: nat, i: nat, key: C.Slot, value: PropertyValue) returns (o: nat)
    requires IsRun(states) && k < |states| && Enabled(states[k], i, Begin(key, value)) && Joins(states[k], key, value)
    ensures o < |states[k].heap|
    ensures var op, next := states[k].heap[o], Next(states[k], i, Begin(key, value));
            && op.key == key && op.expected.Equal(value) && op.closes == 0 && !op.cancelled
            && next.heap == states[k].heap[o := op.(joins := op.joins + 1)]
            && next.threads[i].op == o && next.current == states[k].current
  {
    RunInvariant(states, k);
    o := states[k].current[key];
  }

  /** The write under way for a property: neither finished nor replaced. */
  predicate UnderWay(s: State, o: nat, key: C.Slot) {
    o < |s.heap| && s.heap[o].key == key && s.heap[o].closes == 0 && !s.heap[o].cancelled
  }

  /**
   A caller joins the write under way exactly if that is for an equal value. Otherwise it starts a write of its
   own, the one under way is cancelled, and no other write changes.
   */
  lemma JoinsOrReplaces(states: seq<State>, k: nat, i: nat, key: C.Slot, value: PropertyValue, o: nat)
    requires IsRun(states) && k < |states| && Enabled(states[k], i, Begin(key, value))
    requires UnderWay(states[k], o, key) || forall p :: !UnderWay(states[k], p, key)
    ensures var s, s' := states[k], Next(states[k], i, Begin(key, value));
            if UnderWay(s, o, key) && s.heap[o].expected.Equal(value) then
              s'.heap == s.heap[o := s.heap[o].(joins := s.heap[o].joins + 1)] && s'.threads[i].op == o
            else
              && s'.threads == s.threads[i := Owning(|s.heap|)] && |s'.heap| == |s.heap| + 1
              && UnderWay(s', |s.heap|, key) && s'.heap[|s.heap|].expected == value && s'.heap[|s.heap|].joins == 0
              && s'.heap[|s.heap|].command == ""
              && forall p :: 0 <= p < |s.heap| ==> s'.heap[p] == if UnderWay(s, p, key) then s.heap[p].(cancelled := true) else s.heap[p]
  {
    RunInvariant(states, k);
    var s := states[k];
    forall p | UnderWay(s, p, key)
      ensures key in s.current && s.current[key] == p
    {
      assert OperationKept(s, p);
    }
    assert key in s.current ==> UnderWay(s, s.current[key], key);
  }

  /** A done channel is closed at most once, is open while the owner runs, and the owner can always close it. */
  lemma ClosedOnce(states: seq<State>, k: nat, o: nat) returns (owner: nat)
    requires IsRun(states) && k < |states| && o < |states[k].heap|
    ensures states[k].heap[o].closes <= 1
    ensures states[k].heap[o].closes == 0 ==>
              owner < |states[k].threads| && Owns(states[k].threads[owner]) && states[k].threads[owner].op == o
    ensures states[k].heap[o].closes == 1 ==>
              forall i :: 0 <= i < |states[k].threads| && Owns(states[k].threads[i]) ==> states[k].threads[i].op != o
  {
    RunInvariant(states, k);
    var s := states[k];
    assert OperationKept(s, o);
    owner := 0;
    if s.heap[o].closes == 0 {
      owner := WhoHasWeight(Owner(o), s.threads);
    } else {
      forall i | 0 <= i < |s.threads| && Owns(s.threads[i])
        ensures s.threads[i].op != o
      {
        SomeWeight(Owner(o), s.threads, i);
      }
    }
  }

  /** Finishing closes an open channel and removes the table entry only if it is the operation's own. */
  lemma FinishTouchesOnlyItself(states: seq<State>, k: nat, i: nat, result: string)
    requires IsRun(states) && k < |states| && Enabled(states[k], i, Finish(result))
    ensures var s, s', o := states[k], Next(states[k], i, Finish(result)), states[k].threads[i].op;
            && s.heap[o].closes == 0 && s'.heap[o].closes == 1 && s'.heap[o].cancelled && s'.heap[o].command == result
            && s'.threads == s.threads[i := Idle]
            && (forall key :: key in s.current && s.current[key] != o ==> key in s'.current && s'.current[key] == s.current[key])
            && (forall key :: key in s'.current ==> key in s.current && s'.current[key] == s.current[key] && s.current[key] != o)
            && (forall p :: 0 <= p < |s.heap| && p != o ==> s'.heap[p] == s.heap[p])
  {
    RunInvariant(states, k);
    var s, o := states[k], states[k].threads[i].op;
    assert OperationKept(s, o);
    SomeWeight(Owner(o), s.threads, i);
    forall key | key in s.current && s.current[key] == o
      ensures key == s.heap[o].key
    {
    }
  }

  /** Per property at most one operation is neither finished nor cancelled: every older one was replaced. */
  lemma OneLivePerProperty(states: seq<State>, k: nat, o: nat, p: nat)
    requires IsRun(states) && k < |states| && o < |states[k].heap| && p < |states[k].heap|
    requires states[k].heap[o].closes == 0 && !states[k].heap[o].cancelled
    requires states[k].heap[p].closes == 0 && !states[k].heap[p].cancelled
    requires states[k].heap[o].key == states[k].heap[p].key
    ensures o == p
  {
    RunInvariant(states, k);
    assert OperationKept(states[k], o) && OperationKept(states[k], p);
  }

  /** Once an operation has its command and no thread is still adding to it, every join was added exactly once. */
  lemma EveryJoinIsAdded(states: seq<State>, k: nat, o: nat)
    requires IsRun(states) && k < |states| && o < |states[k].heap| && states[k].heap[o].issued != ""
    requires forall i :: 0 <= i < |states[k].threads| && states[k].threads[i].Crediting? ==> states[k].threads[i].op != o
    ensures states[k].heap[o].credited == states[k].heap[o].joins
  {
    RunInvariant(states, k);
    assert OperationKept(states[k], o);
    NoWeight(InFlight(o), states[k].threads);
  }

  /** The coalesced count of every retained command: what the tracker joined, and every operation's additions. */
  lemma RetainedCounts(states: seq<State>, k: nat, id: string)
    requires IsRun(states) && k < |states| && id in states[k].counts
    ensures id in states[k].replays && states[k].counts[id] == states[k].replays[id] + Total(states[k].heap, id)
  {
    RunInvariant(states, k);
  }

  /** What its waiters read once the channel is closed. */
  predicate SameResult(op: Operation, op': Operation) {
    op'.closes == op.closes && op'.command == op.command && op'.joins == op.joins && op'.issued == op.issued
  }

  lemma ClosedIsFrozen(s: State, i: nat, move: Move, o: nat)
    requires Inv(s) && Enabled(s, i, move) && o < |s.heap| && s.heap[o].closes == 1
    ensures o < |Next(s, i, move).heap| && SameResult(s.heap[o], Next(s, i, move).heap[o])
  {
    assert OperationKept(s, o);
    SomeWeight(Owner(o), s.threads, i);
  }

  lemma StepFreezes(s: State, s': State, o: nat)
    requires Inv(s) && Steps(s, s') && o < |s.heap| && s.heap[o].closes == 1
    ensures o < |s'.heap| && SameResult(s.heap[o], s'.heap[o])
  {
    var i: nat, move :| Enabled(s, i, move) && s' == Next(s, i, move);
    ClosedIsFrozen(s, i, move, o);
  }

  lemma RunFreezes(states: seq<State>, k: nat, o: nat)
    requires IsRun(states) && k + 1 < |states| && o < |states[k].heap| && states[k].heap[o].closes == 1
    ensures o < |states[k + 1].heap| && SameResult(states[k].heap[o], states[k + 1].heap[o])
  {
    RunInvariant(states, k);
    assert StepAt(states, k);
    StepFreezes(states[k], states[k + 1], o);
  }

  /** From the close on, the stored result never changes, so every waiter reads the same. */
  lemma {:induction false} ResultIsFinal(states: seq<State>, k: nat, later: nat, o: nat)
    requires IsRun(states) && k <= later < |states| && o < |states[k].heap| && states[k].heap[o].closes == 1
    ensures o < |states[later].heap| && SameResult(states[k].heap[o], states[later].heap[o])
  {
    if k < later {
      ResultIsFinal(states, k, later - 1, o);
      RunFreezes(states, later - 1, o);
    }
  }
}
