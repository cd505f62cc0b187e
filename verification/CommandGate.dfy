/**
 The per-device gates that serialise provider writes, as atomic steps of any number of threads. Each
 mutex section, each channel operation and each atomic operation is one step. Gates are reference
 counted, dropped from the table when unused, and recreated under a new identity.
 */
module CommandGate {

  /** Where a thread stands; `Idle` is before acquiring and after releasing. */
  datatype Pc =
    | Idle
    | Checking(device: string, gate: nat)
    | Counting(device: string, gate: nat)
    | Loading(device: string, gate: nat, mine: int)
    | Swapping(device: string, gate: nat, mine: int, seen: int)
    | Waiting(device: string, gate: nat)
    | Uncounting(device: string, gate: nat, owns: bool)
    | Holding(device: string, gate: nat)
    | Dropping(device: string, gate: nat)

  /** The token channel has room for one token. */
  datatype Gate = Gate(device: string, token: bool, refs: int)

  /** `gates` is the table, `heap` every gate ever made; `peak` is history: the most there ever were waiting. */
  datatype State = State(threads: seq<Pc>, gates: map<string, nat>, heap: seq<Gate>,
                         pending: int, maximum: int, peak: int)

  datatype Move =
    | Acquire(device: string)
    | TryToken
    | AddWaiter
    | LoadMaximum
    | SwapMaximum
    | TakeToken
    | GiveUp
    | Uncount
    | ReturnToken
    | DropReference

  predicate Enabled(s: State, i: nat, move: Move) {
    && i < |s.threads|
    && (s.threads[i] != Idle ==> s.threads[i].gate < |s.heap|)
    && CanMake(s, s.threads[i], move)
  }

  predicate CanMake(s: State, pc: Pc, move: Move)
    requires pc != Idle ==> pc.gate < |s.heap|
  {
    match move
    case Acquire(device) => pc == Idle && (device in s.gates ==> s.gates[device] < |s.heap|)
    case TryToken => pc.Checking?
    case AddWaiter => pc.Counting?
    case LoadMaximum => pc.Loading?
    case SwapMaximum => pc.Swapping?
    case TakeToken => pc.Waiting? && s.heap[pc.gate].token
    case GiveUp => pc.Waiting?
    case Uncount => pc.Uncounting?
    case ReturnToken => pc.Holding? && !s.heap[pc.gate].token
    case DropReference => pc.Dropping?
  }

  function Larger(a: int, b: int): int {
    if a < b then b else a
  }

  /** One thread moves on; only the gate it refers to and the counters can change with it. */
  function Next(s: State, i: nat, move: Move): State
    requires Enabled(s, i, move)
  {
    var pc := s.threads[i];
    match move
    case Acquire(device) => Referenced(s, i, device)
    case TryToken =>
      if s.heap[pc.gate].token then
        s.(threads := s.threads[i := Holding(pc.device, pc.gate)], heap := s.heap[pc.gate := s.heap[pc.gate].(token := false)])
      else s.(threads := s.threads[i := Counting(pc.device, pc.gate)])
    case AddWaiter =>
      s.(threads := s.threads[i := Loading(pc.device, pc.gate, s.pending + 1)],
         pending := s.pending + 1, peak := Larger(s.peak, s.pending + 1))
    case LoadMaximum =>
      s.(threads := s.threads[i := if pc.mine <= s.maximum then Waiting(pc.device, pc.gate)
                                   else Swapping(pc.device, pc.gate, pc.mine, s.maximum)])
    case SwapMaximum =>
      if s.maximum == pc.seen then s.(threads := s.threads[i := Waiting(pc.device, pc.gate)], maximum := pc.mine)
      else s.(threads := s.threads[i := Loading(pc.device, pc.gate, pc.mine)])
    case TakeToken =>
      s.(threads := s.threads[i := Uncounting(pc.device, pc.gate, true)],
         heap := s.heap[pc.gate := s.heap[pc.gate].(token := false)])
    case GiveUp => s.(threads := s.threads[i := Uncounting(pc.device, pc.gate, false)])
    case Uncount =>
      s.(threads := s.threads[i := if pc.owns then Holding(pc.device, pc.gate) else Dropping(pc.device, pc.gate)],
         pending := s.pending - 1)
    case ReturnToken =>
      s.(threads := s.threads[i := Dropping(pc.device, pc.gate)], heap := s.heap[pc.gate := s.heap[pc.gate].(token := true)])
    case DropReference => Dropped(s, i)
  }

  /** The first critical section of acquire: find or make the gate and count a reference. */
  function Referenced(s: State, i: nat, device: string): State
    requires i < |s.threads| && (device in s.gates ==> s.gates[device] < |s.heap|)
  {
    if device in s.gates then
      var g := s.gates[device];
      s.(threads := s.threads[i := Checking(device, g)], heap := s.heap[g := s.heap[g].(refs := s.heap[g].refs + 1)])
    else
      s.(threads := s.threads[i := Checking(device, |s.heap|)], heap := s.heap + [Gate(device, true, 1)],
         gates := s.gates[device := |s.heap|])
  }

  /** The critical section that gives a reference back and drops an unused gate from the table. */
  function Dropped(s: State, i: nat): State
    requires i < |s.threads| && s.threads[i] != Idle && s.threads[i].gate < |s.heap|
  {
    var pc := s.threads[i];
    var left := s.heap[pc.gate].refs - 1;
    s.(threads := s.threads[i := Idle], heap := s.heap[pc.gate := s.heap[pc.gate].(refs := left)],
       gates := if left == 0 && pc.device in s.gates && s.gates[pc.device] == pc.gate then s.gates - {pc.device} else s.gates)
  }

  // ----- counting threads -----

  datatype Role = Refers(gate: nat) | Owns(gate: nat) | Waits

  predicate InRole(role: Role, pc: Pc) {
    match role
    case Refers(g) => pc != Idle && pc.gate == g
    case Owns(g) => OwnsToken(pc) && pc.gate == g
    case Waits => pc.Loading? || pc.Swapping? || pc.Waiting? || pc.Uncounting?
  }

  /** A thread that took the token and has not put it back. */
  predicate OwnsToken(pc: Pc) {
    pc.Holding? || (pc.Uncounting? && pc.owns)
  }

  function One(role: Role, pc: Pc): nat {
    if InRole(role, pc) then 1 else 0
  }

  function Count(role: Role, threads: seq<Pc>): nat {
    if threads == [] then 0 else One(role, threads[0]) + Count(role, threads[1..])
  }

  lemma {:induction false} CountAfterMove(role: Role, threads: seq<Pc>, i: nat, pc: Pc)
    requires i < |threads|
    ensures Count(role, threads[i := pc]) == Count(role, threads) - One(role, threads[i]) + One(role, pc)
  {
    if i == 0 {
      assert threads[0 := pc][1..] == threads[1..];
    } else {
      CountAfterMove(role, threads[1..], i - 1, pc);
      assert threads[i := pc][1..] == threads[1..][i - 1 := pc];
    }
  }

  lemma {:induction false} NoneInRole(role: Role, threads: seq<Pc>)
    requires forall i :: 0 <= i < |threads| ==> !InRole(role, threads[i])
    ensures Count(role, threads) == 0
  {
    if threads != [] {
      assert threads[0] == threads[0] && !InRole(role, threads[0]);
      NoneInRole(role, threads[1..]);
    }
  }

  lemma {:induction false} SomeInRole(role: Role, threads: seq<Pc>, i: nat)
    requires i < |threads| && InRole(role, threads[i])
    ensures Count(role, threads) >= 1
  {
    if i > 0 {
      SomeInRole(role, threads[1..], i - 1);
    }
  }

  lemma {:induction false} TwoInRole(role: Role, threads: seq<Pc>, i: nat, j: nat)
    requires i < j < |threads| && InRole(role, threads[i]) && InRole(role, threads[j])
    ensures Count(role, threads) >= 2
  {
    if i > 0 {
      TwoInRole(role, threads[1..], i - 1, j - 1);
    } else {
      SomeInRole(role, threads[1..], j - 1);
    }
  }

  lemma {:induction false} WhoIsInRole(role: Role, threads: seq<Pc>) returns (i: nat)
    requires Count(role, threads) >= 1
    ensures i < |threads| && InRole(role, threads[i])
  {
    if InRole(role, threads[0]) {
      i := 0;
    } else {
      i := WhoIsInRole(role, threads[1..]);
      i := i + 1;
    }
  }

  // ----- the invariant -----

  function Tokens(gate: Gate): nat {
    if gate.token then 1 else 0
  }

  /** A gate's reference count is the number of threads using it, and its one token is at home or with a thread. */
  ghost predicate GatesCounted(s: State) {
    forall g :: 0 <= g < |s.heap| ==>
      && s.heap[g].refs == Count(Refers(g), s.threads)
      && Tokens(s.heap[g]) + Count(Owns(g), s.threads) == 1
  }

  /** Every thread uses the gate the table holds for its device. */
  ghost predicate ThreadsPlaced(s: State) {
    forall i :: 0 <= i < |s.threads| && s.threads[i] != Idle ==> Placed(s, s.threads[i])
  }

  predicate Placed(s: State, pc: Pc)
    requires pc != Idle
  {
    && pc.gate < |s.heap| && s.heap[pc.gate].device == pc.device
    && pc.device in s.gates && s.gates[pc.device] == pc.gate
  }

  /** The table holds gates that are in use, each for its own device. */
  ghost predicate TableInUse(s: State) {
    forall d :: d in s.gates ==> s.gates[d] < |s.heap| && s.heap[s.gates[d]].device == d && s.heap[s.gates[d]].refs > 0
  }

  predicate Unsettled(pc: Pc) {
    pc.Loading? || pc.Swapping?
  }

  /** The recorded maximum is the peak, or a thread is on its way to record the peak. */
  ghost predicate PeakTracked(s: State) {
    && s.maximum <= s.peak && s.pending <= s.peak
    && (forall i :: 0 <= i < |s.threads| && Unsettled(s.threads[i]) ==> s.threads[i].mine <= s.peak)
    && (forall i :: 0 <= i < |s.threads| && s.threads[i].Swapping? ==> s.threads[i].seen < s.threads[i].mine)
    && (s.maximum == s.peak || exists i :: 0 <= i < |s.threads| && Unsettled(s.threads[i]) && s.threads[i].mine == s.peak)
  }

  ghost predicate Inv(s: State) {
    && GatesCounted(s) && ThreadsPlaced(s) && TableInUse(s)
    && s.pending == Count(Waits, s.threads)
    && PeakTracked(s)
  }

  // ----- every step keeps it -----

  /** What the other gates see of a move: nothing. What its own gate sees: references and token move together. */
  lemma GateAfterMove(s: State, i: nat, move: Move, g: nat)
    requires Inv(s) && Enabled(s, i, move) && !move.Acquire? && g < |s.heap|
    ensures var s' := Next(s, i, move);
            && s'.heap[g].refs == s.heap[g].refs - One(Refers(g), s.threads[i]) + One(Refers(g), s'.threads[i])
            && Tokens(s'.heap[g]) + One(Owns(g), s'.threads[i]) == Tokens(s.heap[g]) + One(Owns(g), s.threads[i])
  {
  }

  lemma WaitersAfterMove(s: State, i: nat, move: Move)
    requires Enabled(s, i, move)
    ensures Next(s, i, move).pending == s.pending - One(Waits, s.threads[i]) + One(Waits, Next(s, i, move).threads[i])
    ensures Next(s, i, move).threads == s.threads[i := Next(s, i, move).threads[i]]
  {
  }

  lemma NextKeepsGates(s: State, i: nat, move: Move)
    requires Inv(s) && Enabled(s, i, move) && !move.Acquire?
    ensures GatesCounted(Next(s, i, move))
  {
    var s' := Next(s, i, move);
    WaitersAfterMove(s, i, move);
    assert |s'.heap| == |s.heap|;
    forall g | 0 <= g < |s.heap|
      ensures s'.heap[g].refs == Count(Refers(g), s'.threads) && Tokens(s'.heap[g]) + Count(Owns(g), s'.threads) == 1
    {
      GateAfterMove(s, i, move, g);
      CountAfterMove(Refers(g), s.threads, i, s'.threads[i]);
      CountAfterMove(Owns(g), s.threads, i, s'.threads[i]);
    }
  }

  lemma NextKeepsWaiters(s: State, i: nat, move: Move)
    requires Inv(s) && Enabled(s, i, move)
    ensures Next(s, i, move).pending == Count(Waits, Next(s, i, move).threads)
  {
    WaitersAfterMove(s, i, move);
    CountAfterMove(Waits, s.threads, i, Next(s, i, move).threads[i]);
  }

  lemma AcquireKeepsGates(s: State, i: nat, device: string)
    requires Inv(s) && Enabled(s, i, Acquire(device))
    ensures GatesCounted(Referenced(s, i, device))
  {
    var s' := Referenced(s, i, device);
    if device !in s.gates {
      NoneInRole(Refers(|s.heap|), s.threads);
      NoneInRole(Owns(|s.heap|), s.threads);
    }
    forall g | 0 <= g < |s'.heap|
      ensures s'.heap[g].refs == Count(Refers(g), s'.threads) && Tokens(s'.heap[g]) + Count(Owns(g), s'.threads) == 1
    {
      CountAfterMove(Refers(g), s.threads, i, s'.threads[i]);
      CountAfterMove(Owns(g), s.threads, i, s'.threads[i]);
    }
  }

  lemma AcquireKeepsTable(s: State, i: nat, device: string)
    requires Inv(s) && Enabled(s, i, Acquire(device))
    ensures ThreadsPlaced(Referenced(s, i, device)) && TableInUse(Referenced(s, i, device))
  {
    var s' := Referenced(s, i, device);
    forall j | 0 <= j < |s'.threads| && s'.threads[j] != Idle
      ensures Placed(s', s'.threads[j])
    {
      if j != i {
        assert Placed(s, s.threads[j]);
      }
    }
  }

  /** Between acquiring and dropping, a thread keeps its gate and the table stays as it is. */
  lemma MoveKeepsPlaces(s: State, i: nat, move: Move)
    requires Enabled(s, i, move) && !move.Acquire? && !move.DropReference?
    ensures var s' := Next(s, i, move);
            && s'.gates == s.gates && |s'.heap| == |s.heap|
            && (forall g :: 0 <= g < |s.heap| ==> s'.heap[g].device == s.heap[g].device && s'.heap[g].refs == s.heap[g].refs)
            && s'.threads == s.threads[i := s'.threads[i]] && s'.threads[i] != Idle
            && s'.threads[i].gate == s.threads[i].gate && s'.threads[i].device == s.threads[i].device
  {
  }

  lemma NextKeepsTable(s: State, i: nat, move: Move)
    requires Inv(s) && Enabled(s, i, move) && !move.Acquire? && !move.DropReference?
    ensures ThreadsPlaced(Next(s, i, move)) && TableInUse(Next(s, i, move))
  {
    var s' := Next(s, i, move);
    MoveKeepsPlaces(s, i, move);
    forall j | 0 <= j < |s'.threads| && s'.threads[j] != Idle
      ensures Placed(s', s'.threads[j])
    {
      assert Placed(s, s.threads[j]);
    }
  }

  lemma DropKeepsTable(s: State, i: nat)
    requires Inv(s) && Enabled(s, i, DropReference)
    ensures ThreadsPlaced(Dropped(s, i)) && TableInUse(Dropped(s, i))
  {
    var s', g := Dropped(s, i), s.threads[i].gate;
    SomeInRole(Refers(g), s.threads, i);
    forall j | 0 <= j < |s'.threads| && s'.threads[j] != Idle
      ensures Placed(s', s'.threads[j])
    {
      assert Placed(s, s.threads[j]) && Placed(s, s.threads[i]);
      if s.threads[j].gate == g {
        if j < i { TwoInRole(Refers(g), s.threads, j, i); } else { TwoInRole(Refers(g), s.threads, i, j); }
      }
    }
  }

  predicate CountsPeak(move: Move) {
    move.AddWaiter? || move.LoadMaximum? || move.SwapMaximum?
  }

  lemma OtherMovesKeepPeak(s: State, i: nat, move: Move)
    requires Enabled(s, i, move) && !CountsPeak(move)
    ensures var s' := Next(s, i, move);
            && s'.maximum == s.maximum && s'.peak == s.peak && s'.pending <= s.pending
            && s'.threads == s.threads[i := s'.threads[i]]
            && !Unsettled(s.threads[i]) && !Unsettled(s'.threads[i])
  {
  }

  lemma AddWaiterKeepsPeak(s: State, i: nat)
    requires Inv(s) && Enabled(s, i, AddWaiter)
    ensures PeakTracked(Next(s, i, AddWaiter))
  {
    var s' := Next(s, i, AddWaiter);
    if s'.peak != s.peak {
      assert Unsettled(s'.threads[i]) && s'.threads[i].mine == s'.peak;
    } else if s.maximum != s.peak {
      var k :| 0 <= k < |s.threads| && Unsettled(s.threads[k]) && s.threads[k].mine == s.peak;
      assert Unsettled(s'.threads[k]) && s'.threads[k].mine == s'.peak;
    }
  }

  lemma NextKeepsPeak(s: State, i: nat, move: Move)
    requires Inv(s) && Enabled(s, i, move)
    ensures PeakTracked(Next(s, i, move))
  {
    var s' := Next(s, i, move);
    if move.AddWaiter? {
      AddWaiterKeepsPeak(s, i);
    } else if CountsPeak(move) {
      if s.maximum != s.peak && s'.maximum != s'.peak {
        var k :| 0 <= k < |s.threads| && Unsettled(s.threads[k]) && s.threads[k].mine == s.peak;
        assert Unsettled(s'.threads[k]) && s'.threads[k].mine == s'.peak;
      }
    } else {
      OtherMovesKeepPeak(s, i, move);
      if s.maximum != s.peak {
        var k :| 0 <= k < |s.threads| && Unsettled(s.threads[k]) && s.threads[k].mine == s.peak;
        assert Unsettled(s'.threads[k]) && s'.threads[k].mine == s'.peak;
      }
    }
  }

  /** Every step of every thread keeps the invariant. */
  lemma NextKeepsInv(s: State, i: nat, move: Move)
    requires Inv(s) && Enabled(s, i, move)
    ensures Inv(Next(s, i, move))
  {
    if move.Acquire? {
      AcquireKeepsGates(s, i, move.device);
      AcquireKeepsTable(s, i, move.device);
    } else {
      NextKeepsGates(s, i, move);
      if move.DropReference? {
        DropKeepsTable(s, i);
      } else {
        NextKeepsTable(s, i, move);
      }
    }
    NextKeepsWaiters(s, i, move);
    NextKeepsPeak(s, i, move);
  }

  // ----- whole runs -----

  predicate Start(s: State) {
    s.gates == map[] && s.heap == [] && s.pending == 0 && s.maximum == 0 && s.peak == 0
    && forall i :: 0 <= i < |s.threads| ==> s.threads[i] == Idle
  }

  /** Any interleaving: at each point some thread makes some move it can make. */
  ghost predicate IsRun(states: seq<State>) {
    && |states| >= 1 && Start(states[0])
    && forall k :: 0 <= k < |states| - 1 ==> StepAt(states, k)
  }

  ghost predicate StepAt(states: seq<State>, k: nat)
    requires k + 1 < |states|
  {
    Steps(states[k], states[k + 1])
  }

  ghost predicate Steps(s: State, s': State) {
    exists i: nat, move :: Enabled(s, i, move) && s' == Next(s, i, move)
  }

  lemma {:induction false} RunInvariant(states: seq<State>, k: nat)
    requires IsRun(states) && k < |states|
    ensures Inv(states[k])
  {
    if k == 0 {
      NoneInRole(Waits, states[0].threads);
    } else {
      RunInvariant(states, k - 1);
      assert StepAt(states, k - 1);
      var i: nat, move :| Enabled(states[k - 1], i, move) && states[k] == Next(states[k - 1], i, move);
      NextKeepsInv(states[k - 1], i, move);
    }
  }

  /** At no point of any run do two threads own the gate of one device. */
  lemma AtMostOneHolder(states: seq<State>, k: nat, i: nat, j: nat)
    requires IsRun(states) && k < |states| && i < |states[k].threads| && j < |states[k].threads|
    requires OwnsToken(states[k].threads[i]) && OwnsToken(states[k].threads[j])
    requires states[k].threads[i].device == states[k].threads[j].device
    ensures i == j
  {
    RunInvariant(states, k);
    var s := states[k];
    assert Placed(s, s.threads[i]) && Placed(s, s.threads[j]);
    var role := Owns(s.threads[i].gate);
    if i < j { TwoInRole(role, s.threads, i, j); }
    if j < i { TwoInRole(role, s.threads, j, i); }
  }

  lemma HeldGateIsEmpty(s: State, i: nat)
    requires Inv(s) && i < |s.threads| && s.threads[i].Holding?
    ensures Enabled(s, i, ReturnToken)
  {
    assert Placed(s, s.threads[i]);
    SomeInRole(Owns(s.threads[i].gate), s.threads, i);
  }

  /** Giving the token back never blocks: the channel of a held gate is empty. */
  lemma ReturningNeverBlocks(states: seq<State>, k: nat, i: nat)
    requires IsRun(states) && k < |states| && i < |states[k].threads| && states[k].threads[i].Holding?
    ensures Enabled(states[k], i, ReturnToken)
  {
    RunInvariant(states, k);
    HeldGateIsEmpty(states[k], i);
  }

  /** A waiting thread can take the token now, or some thread owns it and can move on. */
  lemma WaitersAreServed(states: seq<State>, k: nat, i: nat) returns (owner: nat)
    requires IsRun(states) && k < |states| && i < |states[k].threads| && states[k].threads[i].Waiting?
    ensures !Enabled(states[k], i, TakeToken) ==>
              && owner < |states[k].threads| && OwnsToken(states[k].threads[owner])
              && states[k].threads[owner].device == states[k].threads[i].device
              && (Enabled(states[k], owner, ReturnToken) || Enabled(states[k], owner, Uncount))
  {
    RunInvariant(states, k);
    var s := states[k];
    assert Placed(s, s.threads[i]);
    owner := 0;
    if !s.heap[s.threads[i].gate].token {
      owner := WhoIsInRole(Owns(s.threads[i].gate), s.threads);
      assert Placed(s, s.threads[owner]);
      if s.threads[owner].Holding? {
        ReturningNeverBlocks(states, k, owner);
      }
    }
  }

  /** A device is in the table exactly while some thread uses its gate; the gate counts those threads. */
  lemma TableHoldsUsedGates(states: seq<State>, k: nat, device: string)
    requires IsRun(states) && k < |states|
    ensures device in states[k].gates <==>
              exists i :: 0 <= i < |states[k].threads| && states[k].threads[i] != Idle && states[k].threads[i].device == device
  {
    RunInvariant(states, k);
    var s := states[k];
    if device in s.gates {
      var i := WhoIsInRole(Refers(s.gates[device]), s.threads);
      assert Placed(s, s.threads[i]);
    }
    if i :| 0 <= i < |s.threads| && s.threads[i] != Idle && s.threads[i].device == device {
      assert Placed(s, s.threads[i]);
    }
  }

  /** When every thread is done, cancelled or not, nothing is left and the recorded maximum is the true peak. */
  lemma NothingLeaks(states: seq<State>, k: nat)
    requires IsRun(states) && k < |states|
    requires forall i :: 0 <= i < |states[k].threads| ==> states[k].threads[i] == Idle
    ensures states[k].gates == map[] && states[k].pending == 0 && states[k].maximum == states[k].peak
    ensures forall g :: 0 <= g < |states[k].heap| ==> states[k].heap[g].refs == 0 && states[k].heap[g].token
  {
    RunInvariant(states, k);
    var s := states[k];
    NoneInRole(Waits, s.threads);
    forall g | 0 <= g < |s.heap|
      ensures s.heap[g].refs == 0 && s.heap[g].token
    {
      NoneInRole(Refers(g), s.threads);
      NoneInRole(Owns(g), s.threads);
    }
    assert forall d :: d !in s.gates;
  }

  /** The pending counter is the number of waiting threads, and the recorded maximum never exceeds the peak. */
  lemma PendingCountsWaiters(states: seq<State>, k: nat)
    requires IsRun(states) && k < |states|
    ensures states[k].pending == Count(Waits, states[k].threads)
    ensures states[k].maximum <= states[k].peak
    ensures (forall i :: 0 <= i < |states[k].threads| ==> !Unsettled(states[k].threads[i])) ==> states[k].maximum == states[k].peak
  {
    RunInvariant(states, k);
  }

  /** In any run, a device that no thread uses is acquired at once: find or make its gate, and take the token without waiting. */
  lemma UnusedGateIsTakenAtOnce(states: seq<State>, k: nat, i: nat, device: string)
    requires IsRun(states) && k < |states| && i < |states[k].threads| && states[k].threads[i] == Idle
    requires forall j :: 0 <= j < |states[k].threads| && states[k].threads[j] != Idle ==> states[k].threads[j].device != device
    ensures Enabled(states[k], i, Acquire(device))
    ensures var s := Next(states[k], i, Acquire(device));
            && Enabled(s, i, TryToken)
            && Next(s, i, TryToken).threads[i].Holding? && Next(s, i, TryToken).threads[i].device == device
            && Next(s, i, TryToken).pending == states[k].pending
  {
    RunInvariant(states, k);
    TableHoldsUsedGates(states, k, device);
  }
}
