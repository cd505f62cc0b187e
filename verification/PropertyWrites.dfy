/** The mutex sections of shared property writes, on operation objects changed in place. */
module PropertyWrites {
  import opened Values
  import C = CommandState
  import P = PropertyOperations

  class WriteOperation {
    const key: C.Slot
    const expected: PropertyValue
    var joins: nat
    var command: string
    var cancelled: bool
    var closed: bool
    ghost const id: nat
    ghost var issued: string
    ghost var credited: nat

    constructor (key: C.Slot, expected: PropertyValue, ghost id: nat)
      ensures this.key == key && this.expected == expected && this.id == id && !closed
      ensures Abs() == P.NewOperation(key, expected)
    {
      this.key, this.expected, this.id := key, expected, id;
      joins, command, cancelled, closed, issued, credited := 0, "", false, false, "", 0;
    }

    ghost function Abs(): P.Operation
      reads this
    {
      P.Operation(key, expected, joins, command, cancelled, if closed then 1 else 0, issued, credited)
    }
  }

  class PropertyWriter {
    var current: map<C.Slot, WriteOperation>
    ghost var made: seq<WriteOperation>
    ghost var threads: seq<P.Pc>
    /** The tracker, as far as it matters here. */
    ghost var counts: map<string, nat>
    ghost var used: set<string>
    ghost var replays: map<string, nat>

    ghost predicate Valid()
      reads this
    {
      && (forall k :: 0 <= k < |made| ==> made[k].id == k)
      && (forall k :: k in current ==> current[k].id < |made| && made[current[k].id] == current[k])
    }

    ghost function Abs(): P.State
      reads this, made
    {
      P.State(threads, map k | k in current :: current[k].id, Heap(made), counts, used, replays)
    }

    static ghost function Heap(made: seq<WriteOperation>): (heap: seq<P.Operation>)
      reads made
      ensures |heap| == |made|
      ensures forall k :: 0 <= k < |made| ==> heap[k] == made[k].Abs()
    {
      seq(|made|, k requires 0 <= k < |made| reads made => made[k].Abs())
    }

    ghost predicate Made(op: WriteOperation)
      reads this
    {
      op.id < |made| && made[op.id] == op
    }

    constructor (ghost n: nat)
      ensures Valid() && fresh(made) && P.Start(Abs()) && |threads| == n
    {
      current, made, threads := map[], [], seq(n, i => P.Idle);
      counts, used, replays := map[], {}, map[];
    }

    /** Join the operation for the same value, or cancel it and put a new one in its place. */
    method BeginOperation(key: C.Slot, value: PropertyValue, ghost i: nat) returns (op: WriteOperation, joined: bool)
      requires Valid() && i < |threads| && threads[i] == P.Idle
      modifies this, made
      ensures Valid() && Made(op) && old(made) <= made && forall k :: |old(made)| <= k < |made| ==> fresh(made[k])
      ensures P.Enabled(old(Abs()), i, P.Begin(key, value)) && Abs() == P.Next(old(Abs()), i, P.Begin(key, value))
      ensures joined == P.Joins(old(Abs()), key, value) && threads[i].op == op.id
    {
      joined := key in current && current[key].expected.Equal(value);
      if joined {
        op := Join(key, value, i);
      } else {
        op := Replace(key, value, i);
      }
    }

    method Join(key: C.Slot, value: PropertyValue, ghost i: nat) returns (op: WriteOperation)
      requires Valid() && i < |threads| && key in current && current[key].expected.Equal(value)
      modifies `threads, made
      ensures Valid() && Made(op) && op == current[key]
      ensures |threads| == |old(threads)| && threads[i] != P.Idle && threads[i].op == op.id
      ensures Abs() == P.Begun(old(Abs()), i, key, value)
    {
      op := current[key];
      CountJoin(op, i);
    }

    method Replace(key: C.Slot, value: PropertyValue, ghost i: nat) returns (op: WriteOperation)
      requires Valid() && i < |threads| && (key in current ==> !current[key].expected.Equal(value))
      modifies this, made
      ensures Valid() && Made(op) && made == old(made) + [op] && fresh(op) && threads == old(threads)[i := P.Owning(op.id)]
      ensures Abs() == P.Begun(old(Abs()), i, key, value)
    {
      if key in current {
        Cancel(current[key]);
      }
      op := Make(key, value, i);
      assert Abs().heap == P.Begun(old(Abs()), i, key, value).heap;
    }

    method CountJoin(op: WriteOperation, ghost i: nat)
      requires Valid() && Made(op) && i < |threads|
      modifies `threads, op`joins
      ensures Valid() && Made(op)
      ensures var before := old(Abs()).heap[op.id];
              Abs() == old(Abs()).(heap := old(Abs()).heap[op.id := before.(joins := before.joins + 1)],
                threads := old(threads)[i := if before.command != "" then P.Crediting(op.id, before.command, 1, true) else P.Waiting(op.id)])
    {
      op.joins := op.joins + 1;
      threads := threads[i := if op.command != "" then P.Crediting(op.id, op.command, 1, true) else P.Waiting(op.id)];
    }

    method Cancel(op: WriteOperation)
      requires Valid() && Made(op)
      modifies op`cancelled
      ensures Valid() && Abs() == old(Abs()).(heap := old(Abs()).heap[op.id := old(Abs()).heap[op.id].(cancelled := true)])
    {
      op.cancelled := true;
    }

    method Make(key: C.Slot, value: PropertyValue, ghost i: nat) returns (op: WriteOperation)
      requires Valid() && i < |threads|
      modifies `current, `made, `threads
      ensures Valid() && Made(op) && fresh(op) && made == old(made) + [op] && op.id == |old(made)|
      ensures Abs() == old(Abs()).(heap := old(Abs()).heap + [P.NewOperation(key, value)],
                current := old(Abs()).current[key := op.id], threads := old(threads)[i := P.Owning(op.id)])
    {
      op := new WriteOperation(key, value, |made|);
      current := current[key := op];
      made := made + [op];
      threads := threads[i := P.Owning(op.id)];
      assert Abs().heap == old(Abs()).heap + [P.NewOperation(key, value)];
      assert Abs().current == old(Abs()).current[key := op.id];
    }

    /** Publish the command; the answer says whether the operation is still the current one, and what is left to add. */
    method SetCommand(key: C.Slot, op: WriteOperation, id: string, ghost i: nat) returns (active: bool, coalesced: nat)
      requires Valid() && Made(op) && op.key == key && i < |threads| && threads[i] == P.Assigning(op.id, id)
      modifies `threads, op`command, op`issued
      ensures Valid() && P.Enabled(old(Abs()), i, P.SetCommand) && Abs() == P.Next(old(Abs()), i, P.SetCommand)
      ensures active == P.InTable(Abs(), op.id) && coalesced == op.joins
      ensures coalesced > 0 ==> threads[i] == P.Crediting(op.id, id, coalesced, false)
    {
      Publish(op, id, i);
      active := key in current && current[key] == op;
      coalesced := op.joins;
    }

    method Publish(op: WriteOperation, id: string, ghost i: nat)
      requires Valid() && Made(op) && i < |threads| && threads[i] == P.Assigning(op.id, id)
      modifies `threads, op`command, op`issued
      ensures Valid() && Abs() == P.Assigned(old(Abs()), i)
    {
      op.command := id;
      op.issued := id;
      threads := threads[i := if op.joins > 0 then P.Crediting(op.id, id, op.joins, false) else P.Writing(op.id)];
    }

    /** Store the result, clear the own entry, cancel, and close the channel, which must be open. */
    method FinishOperation(key: C.Slot, op: WriteOperation, result: string, ghost i: nat)
      requires Valid() && Made(op) && op.key == key && !op.closed
      requires i < |threads| && (threads[i] == P.Owning(op.id) || threads[i] == P.Writing(op.id))
      modifies `threads, `current, op`command, op`cancelled, op`closed
      ensures Valid() && P.Enabled(old(Abs()), i, P.Finish(result)) && Abs() == P.Next(old(Abs()), i, P.Finish(result))
    {
      ghost var target := P.Finished(Abs(), i, result);
      Close(op, result, i);
      assert Abs().heap == target.heap && Abs().threads == target.threads;
      if key in current && current[key] == op {
        RemoveEntry(key);
      }
      assert Abs() == target;
    }

    method Close(op: WriteOperation, result: string, ghost i: nat)
      requires Valid() && Made(op) && !op.closed && i < |threads|
      modifies `threads, op`command, op`cancelled, op`closed
      ensures Valid() && Made(op)
      ensures var before := old(Abs()).heap[op.id];
              Abs() == old(Abs()).(threads := old(threads)[i := P.Idle],
                heap := old(Abs()).heap[op.id := before.(command := result, cancelled := true, closes := before.closes + 1)])
    {
      op.command := result;
      op.cancelled := true;
      op.closed := true;
      threads := threads[i := P.Idle];
    }

    method RemoveEntry(key: C.Slot)
      requires Valid()
      modifies `current
      ensures Valid() && Abs() == old(Abs()).(current := old(Abs()).current - {key})
    {
      current := current - {key};
      assert Abs().current == old(Abs()).current - {key};
    }
  }
}
