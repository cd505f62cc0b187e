/** The dispatcher: a fixed number of shards, each device always served by the same one. */
module EventDispatcher {
  import opened EventQueue
  import opened EventShard

  datatype State = State(closed: bool, queues: seq<Queue>)

  /** Shard of a device: the hash is any function of the device id. */
  function Home(hash: string -> nat, device: string, count: nat): (i: nat)
    requires count > 0
    ensures i < count
  {
    hash(device) % count
  }

  function Published(s: State, hash: string -> nat, e: Event): (State, EnqueueResult)
    requires |s.queues| > 0
  {
    if s.closed then (s, EnqueueResult.Closed)
    else
      var k := Home(hash, e.deviceId, |s.queues|);
      var (q, r) := EventQueue.Enqueue(s.queues[k], e);
      (s.(queues := s.queues[k := q]), r)
  }

  function Worked(s: State, k: nat): (State, NextResult)
    requires k < |s.queues|
  {
    var (q, r) := EventQueue.Next(s.queues[k]);
    (s.(queues := s.queues[k := q]), r)
  }

  function Stopped(s: State): State {
    if s.closed then s
    else State(true, seq(|s.queues|, i requires 0 <= i < |s.queues| => EventQueue.Close(s.queues[i])))
  }

  class Dispatcher {
    const shards: seq<Shard>
    const hash: string -> nat
    var closed: bool

    /** Every queued entry of every shard. */
    static ghost function Entries(shards: seq<Shard>): (r: set<QueuedEvent>)
      reads shards
      ensures forall i, x :: 0 <= i < |shards| && x in shards[i].flat ==> x in r
    {
      if shards == [] then {} else (set x | x in shards[0].flat) + Entries(shards[1..])
    }

    ghost predicate Valid()
      reads shards, Entries(shards)
    {
      && |shards| > 0
      && (forall i, j :: 0 <= i < j < |shards| ==> shards[i] != shards[j])
      && (forall i, j, x :: 0 <= i < j < |shards| && x in shards[i].flat ==> x !in shards[j].flat)
      && (forall i :: 0 <= i < |shards| ==> shards[i].Valid())
    }

    ghost function Abstract(): (s: State)
      reads `closed, shards
      ensures |s.queues| == |shards|
    {
      State(closed, seq(|shards|, i requires 0 <= i < |shards| reads shards => shards[i].Abstract()))
    }

    static method MakeShards(count: nat, size: nat) returns (made: seq<Shard>)
      ensures |made| == count && fresh(made)
      ensures forall j, k :: 0 <= j < k < count ==> made[j] != made[k]
      ensures forall j :: 0 <= j < count ==> made[j].Valid() && made[j].flat == [] && made[j].Abstract() == Empty(size)
    {
      made := [];
      for i := 0 to count
        invariant |made| == i && forall j :: 0 <= j < i ==> fresh(made[j])
        invariant forall j, k :: 0 <= j < k < i ==> made[j] != made[k]
        invariant forall j :: 0 <= j < i ==> made[j].Valid() && made[j].flat == [] && made[j].Abstract() == Empty(size)
      {
        var shard := new Shard(size);
        made := made + [shard];
      }
    }

    constructor (shardCount: nat, queueSize: nat, hash: string -> nat)
      ensures Valid() && fresh(shards) && !closed
      ensures |shards| == if shardCount < 1 then 1 else shardCount
      ensures forall i :: 0 <= i < |shards| ==> Abstract().queues[i] == Empty(if queueSize < 1 then 1 else queueSize)
    {
      var count, size := if shardCount < 1 then 1 else shardCount, if queueSize < 1 then 1 else queueSize;
      var made := MakeShards(count, size);
      this.shards, this.hash, closed := made, hash, false;
    }

    twostate lemma OthersUnchanged(k: nat)
      requires old(Valid()) && k < |shards|
      requires forall i :: 0 <= i < |shards| && i != k ==> unchanged(shards[i]) && forall x :: x in shards[i].flat ==> unchanged(x)
      requires shards[k].Valid() && forall x :: x in shards[k].flat ==> x in old(shards[k].flat) || fresh(x)
      ensures Valid()
      ensures Abstract().queues == old(Abstract()).queues[k := shards[k].Abstract()]
    {
      forall i | 0 <= i < |shards| && i != k
        ensures shards[i].Valid() && shards[i].flat == old(shards[i].flat)
        ensures shards[i].Abstract() == old(shards[i].Abstract())
      {
        shards[i].StaysValid();
      }
    }

    /** Hand an event to the shard of its device; the others keep their entries and their state. */
    method Publish(event: Event, trace: string, now: int) returns (result: EnqueueResult)
      requires Valid()
      modifies shards, Entries(shards)
      ensures Valid()
      ensures var e := event.(traceId := if event.traceId == "" then trace else event.traceId, enqueuedAt := now);
              (Abstract(), result) == Published(old(Abstract()), hash, e)
    {
      if closed {
        return EnqueueResult.Closed;
      }
      var e := event.(traceId := if event.traceId == "" then trace else event.traceId, enqueuedAt := now);
      result := Offer(Home(hash, e.deviceId, |shards|), e);
    }

    method Offer(k: nat, e: Event) returns (result: EnqueueResult)
      requires Valid() && k < |shards|
      modifies shards[k], Entries(shards)
      ensures Valid()
      ensures var (q, r) := EventQueue.Enqueue(old(Abstract()).queues[k], e);
              result == r && Abstract() == old(Abstract()).(queues := old(Abstract()).queues[k := q])
    {
      result := shards[k].Enqueue(e);
      OthersUnchanged(k);
    }

    /** One turn of the worker of shard k. */
    method WorkOn(k: nat) returns (result: NextResult)
      requires Valid() && k < |shards|
      modifies shards[k]
      ensures Valid()
      ensures (Abstract(), result) == Worked(old(Abstract()), k)
    {
      result := shards[k].Next();
      OthersUnchanged(k);
    }

    method CloseShard(k: nat)
      requires Valid() && k < |shards|
      modifies shards[k]
      ensures Valid()
      ensures Abstract().queues == old(Abstract()).queues[k := EventQueue.Close(old(Abstract()).queues[k])]
    {
      shards[k].Close();
      OthersUnchanged(k);
    }

    method CloseAll()
      requires Valid()
      modifies `closed, shards
      ensures Valid() && Abstract() == Stopped(old(Abstract()))
    {
      if !closed {
        closed := true;
        ghost var before: State := Abstract();
        for i := 0 to |shards|
          invariant Valid() && closed
          invariant forall j :: 0 <= j < |shards| ==>
                      Abstract().queues[j] == if j < i then EventQueue.Close(before.queues[j]) else before.queues[j]
        {
          CloseShard(i);
        }
      }
    }
  }
}
