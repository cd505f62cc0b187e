/**
 The coordinator as it is written: gates are objects in a table, changed in place. Each method is one
 critical section, channel operation or atomic operation, and is one move of the step machine.
 */
module CommandCoordinator {
  import G = CommandGate

  class TokenGate {
    const device: string
    /** Which of the gates ever made this is. */
    ghost const id: nat
    var token: bool
    var refs: int

    constructor (device: string, ghost id: nat)
      ensures this.device == device && this.id == id && token && refs == 0
    {
      this.device, this.id, token, refs := device, id, true, 0;
    }
  }

  class Coordinator {
    var gates: map<string, TokenGate>
    var pending: int
    var maximum: int
    ghost var made: seq<TokenGate>
    ghost var threads: seq<G.Pc>
    ghost var peak: int

    ghost predicate Valid()
      reads this
    {
      && (forall k :: 0 <= k < |made| ==> made[k].id == k)
      && (forall d :: d in gates ==> gates[d].id < |made| && made[gates[d].id] == gates[d] && gates[d].device == d)
    }

    ghost function Abs(): G.State
      reads this, made
    {
      G.State(threads, map d | d in gates :: gates[d].id, Heap(made), pending, maximum, peak)
    }

    static ghost function Heap(made: seq<TokenGate>): (heap: seq<G.Gate>)
      reads made
      ensures |heap| == |made|
      ensures forall k :: 0 <= k < |made| ==> heap[k] == G.Gate(made[k].device, made[k].token, made[k].refs)
    {
      seq(|made|, k requires 0 <= k < |made| reads made => G.Gate(made[k].device, made[k].token, made[k].refs))
    }

    ghost predicate Uses(i: nat, gate: TokenGate)
      reads this
    {
      i < |threads| && threads[i] != G.Idle && threads[i].gate == gate.id < |made| && made[gate.id] == gate
    }

    constructor (ghost n: nat)
      ensures Valid() && fresh(made) && G.Start(Abs()) && |threads| == n
    {
      gates, pending, maximum := map[], 0, 0;
      made, peak := [], 0;
      threads := seq(n, i => G.Idle);
    }

    /** Find or make the gate of a device and count a reference to it. */
    method Reference(device: string, ghost i: nat) returns (gate: TokenGate)
      requires Valid() && i < |threads| && threads[i] == G.Idle
      modifies this, made
      ensures Valid() && Uses(i, gate) && old(made) <= made && forall k :: |old(made)| <= k < |made| ==> fresh(made[k])
      ensures G.Enabled(old(Abs()), i, G.Acquire(device)) && Abs() == G.Next(old(Abs()), i, G.Acquire(device))
    {
      ghost var target := G.Referenced(Abs(), i, device);
      if device in gates {
        gate := gates[device];
      } else {
        gate := Make(device);
      }
      assert target.gates == Abs().gates && target.heap == Abs().heap[gate.id := Abs().heap[gate.id].(refs := gate.refs + 1)];
      CountIn(gate, i);
      assert Abs() == target;
    }

    method CountIn(gate: TokenGate, ghost i: nat)
      requires Valid() && i < |threads| && gate.id < |made| && made[gate.id] == gate
      modifies `threads, gate`refs
      ensures Valid() && threads == old(threads)[i := G.Checking(gate.device, gate.id)]
      ensures Abs() == old(Abs()).(threads := threads,
                heap := old(Abs()).heap[gate.id := old(Abs()).heap[gate.id].(refs := old(gate.refs) + 1)])
    {
      gate.refs := gate.refs + 1;
      threads := threads[i := G.Checking(gate.device, gate.id)];
    }

    method Make(device: string) returns (gate: TokenGate)
      requires Valid() && device !in gates
      modifies `gates, `made
      ensures Valid() && fresh(gate) && gate.device == device && gate.id == |old(made)| && made == old(made) + [gate]
      ensures gate.refs == 0 && Abs() == old(Abs()).(gates := old(Abs()).gates[device := gate.id], heap := old(Abs()).heap + [G.Gate(device, true, 0)])
      ensures gates == old(gates)[device := gate]
    {
      gate := new TokenGate(device, |made|);
      gates := gates[device := gate];
      made := made + [gate];
      assert Abs().heap == old(Abs()).heap + [G.Gate(device, true, 0)];
      assert Abs().gates == old(Abs()).gates[device := gate.id];
    }

    /** A receive that does not block; the fast path of acquiring takes the token if it is there. */
    method TryToken(gate: TokenGate, ghost i: nat) returns (taken: bool)
      requires Valid() && Uses(i, gate) && threads[i].Checking?
      modifies `threads, gate`token
      ensures Valid() && G.Enabled(old(Abs()), i, G.TryToken) && Abs() == G.Next(old(Abs()), i, G.TryToken)
      ensures taken <==> threads[i].Holding?
    {
      taken := gate.token;
      if taken {
        gate.token := false;
        threads := threads[i := G.Holding(threads[i].device, threads[i].gate)];
      } else {
        threads := threads[i := G.Counting(threads[i].device, threads[i].gate)];
      }
    }

    method AddWaiter(gate: TokenGate, ghost i: nat) returns (mine: int)
      requires Valid() && Uses(i, gate) && threads[i].Counting?
      modifies `threads, `pending, `peak
      ensures Valid() && G.Enabled(old(Abs()), i, G.AddWaiter) && Abs() == G.Next(old(Abs()), i, G.AddWaiter)
      ensures threads[i].Loading? && threads[i].mine == mine
    {
      pending := pending + 1;
      peak := G.Larger(peak, pending);
      mine := pending;
      threads := threads[i := G.Loading(threads[i].device, threads[i].gate, mine)];
    }

    /** Read the recorded maximum; there is more to do only if it is below the thread's own count. */
    method LoadMaximum(gate: TokenGate, mine: int, ghost i: nat) returns (seen: int, settled: bool)
      requires Valid() && Uses(i, gate) && threads[i].Loading? && threads[i].mine == mine
      modifies `threads
      ensures Valid() && G.Enabled(old(Abs()), i, G.LoadMaximum) && Abs() == G.Next(old(Abs()), i, G.LoadMaximum)
      ensures if settled then threads[i].Waiting? else threads[i].Swapping? && threads[i].seen == seen && threads[i].mine == mine
    {
      seen := maximum;
      settled := mine <= seen;
      threads := threads[i := if settled then G.Waiting(threads[i].device, threads[i].gate)
                              else G.Swapping(threads[i].device, threads[i].gate, mine, seen)];
    }

    method CompareAndSwap(gate: TokenGate, seen: int, mine: int, ghost i: nat) returns (settled: bool)
      requires Valid() && Uses(i, gate) && threads[i].Swapping? && threads[i].seen == seen && threads[i].mine == mine
      modifies `threads, `maximum
      ensures Valid() && G.Enabled(old(Abs()), i, G.SwapMaximum) && Abs() == G.Next(old(Abs()), i, G.SwapMaximum)
      ensures if settled then threads[i].Waiting? else threads[i].Loading? && threads[i].mine == mine
    {
      settled := maximum == seen;
      if settled {
        maximum := mine;
      }
      threads := threads[i := if settled then G.Waiting(threads[i].device, threads[i].gate)
                              else G.Loading(threads[i].device, threads[i].gate, mine)];
    }

    /** The blocking choice: the token if it is there, or giving up when the context ended. */
    method TakeOrGiveUp(gate: TokenGate, cancelled: bool, ghost i: nat) returns (owns: bool)
      requires Valid() && Uses(i, gate) && threads[i].Waiting? && (cancelled || gate.token)
      modifies `threads, gate`token
      ensures var move := if owns then G.TakeToken else G.GiveUp;
              Valid() && G.Enabled(old(Abs()), i, move) && Abs() == G.Next(old(Abs()), i, move)
      ensures threads[i].Uncounting? && threads[i].owns == owns
    {
      if cancelled && gate.token {
        owns := *;
      } else {
        owns := gate.token;
      }
      if owns {
        gate.token := false;
      }
      threads := threads[i := G.Uncounting(threads[i].device, threads[i].gate, owns)];
    }

    method RemoveWaiter(gate: TokenGate, owns: bool, ghost i: nat)
      requires Valid() && Uses(i, gate) && threads[i].Uncounting? && threads[i].owns == owns
      modifies `threads, `pending
      ensures Valid() && G.Enabled(old(Abs()), i, G.Uncount) && Abs() == G.Next(old(Abs()), i, G.Uncount)
    {
      pending := pending - 1;
      threads := threads[i := if owns then G.Holding(threads[i].device, threads[i].gate)
                              else G.Dropping(threads[i].device, threads[i].gate)];
    }

    /** Put the token back; the channel has room for it, so the send cannot block. */
    method ReturnToken(gate: TokenGate, ghost i: nat)
      requires Valid() && Uses(i, gate) && threads[i].Holding? && G.Inv(Abs())
      modifies `threads, gate`token
      ensures Valid() && G.Enabled(old(Abs()), i, G.ReturnToken) && Abs() == G.Next(old(Abs()), i, G.ReturnToken)
    {
      G.HeldGateIsEmpty(Abs(), i);
      Send(gate, i);
    }

    method Send(gate: TokenGate, ghost i: nat)
      requires Valid() && Uses(i, gate) && threads[i].Holding? && !gate.token
      modifies `threads, gate`token
      ensures Valid() && G.Enabled(old(Abs()), i, G.ReturnToken) && Abs() == G.Next(old(Abs()), i, G.ReturnToken)
    {
      gate.token := true;
      threads := threads[i := G.Dropping(threads[i].device, threads[i].gate)];
    }

    /** Give a reference back; the last one drops the gate from the table. */
    method ReleaseReference(device: string, gate: TokenGate, ghost i: nat)
      requires Valid() && Uses(i, gate) && threads[i].Dropping? && threads[i].device == device
      modifies `threads, `gates, gate`refs
      ensures Valid() && G.Enabled(old(Abs()), i, G.DropReference) && Abs() == G.Next(old(Abs()), i, G.DropReference)
    {
      ghost var target := G.Dropped(Abs(), i);
      CountOut(gate, i);
      if gate.refs == 0 && device in gates && gates[device] == gate {
        RemoveEntry(device);
      }
      assert Abs() == target;
    }

    method CountOut(gate: TokenGate, ghost i: nat)
      requires Valid() && i < |threads| && gate.id < |made| && made[gate.id] == gate
      modifies `threads, gate`refs
      ensures Valid() && gate.refs == old(gate.refs) - 1
      ensures Abs() == old(Abs()).(threads := old(threads)[i := G.Idle],
                heap := old(Abs()).heap[gate.id := old(Abs()).heap[gate.id].(refs := gate.refs)])
    {
      gate.refs := gate.refs - 1;
      threads := threads[i := G.Idle];
    }

    method RemoveEntry(device: string)
      requires Valid()
      modifies `gates
      ensures Valid() && Abs() == old(Abs()).(gates := old(Abs()).gates - {device})
    {
      gates := gates - {device};
    }
  }
}
