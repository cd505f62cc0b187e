/** Whole runs of a dispatcher: any number of shards, publications and worker turns in any order. */
module DispatcherRuns {
  import opened EventQueue
  import opened EventRuns
  import opened EventDispatcher

  datatype Action = Post(event: Event) | Turn(shard: nat) | Stop

  /** The state, and every entry handed to a handler so far, over all shards. */
  datatype History = History(state: State, handled: seq<Entry>)

  ghost predicate Sound(s: State, count: nat) {
    |s.queues| == count && forall i :: 0 <= i < count ==> EventQueue.Valid(s.queues[i])
  }

  function Act(h: History, hash: string -> nat, a: Action): History
    requires |h.state.queues| > 0
  {
    match a
    case Post(e) => h.(state := Published(h.state, hash, e).0)
    case Turn(k) =>
      if k >= |h.state.queues| then h
      else
        var (s, r) := Worked(h.state, k);
        History(s, if r.Delivered? then h.handled + [r.entry] else h.handled)
    case Stop => h.(state := Stopped(h.state))
  }

  function Dispatch(count: nat, capacity: nat, hash: string -> nat, actions: seq<Action>): (h: History)
    requires count > 0
    ensures |h.state.queues| == count
  {
    if actions == [] then History(State(false, seq(count, _ => Empty(capacity))), [])
    else Act(Dispatch(count, capacity, hash, actions[..|actions| - 1]), hash, actions[|actions| - 1])
  }

  /** Devices of one shard that share a key are one device; devices of different shards may share keys. */
  ghost predicate PostsNameOneDevice(actions: seq<Action>, hash: string -> nat, count: nat)
    requires count > 0
  {
    forall i, j ::
      (&& 0 <= i < |actions| && 0 <= j < |actions| && actions[i].Post? && actions[j].Post?
       && actions[i].event.coalesceKey != "" && actions[i].event.coalesceKey == actions[j].event.coalesceKey
       && Home(hash, actions[i].event.deviceId, count) == Home(hash, actions[j].event.deviceId, count)) ==>
        actions[i].event.deviceId == actions[j].event.deviceId
  }

  /** Which device owns a key in a shard. */
  type Owner = (nat, string) -> string

  ghost function PostOwner(actions: seq<Action>, hash: string -> nat, count: nat, k: nat, key: string): string
    requires count > 0
  {
    if i: nat :| i < |actions| && actions[i].Post? && actions[i].event.coalesceKey == key
                 && Home(hash, actions[i].event.deviceId, count) == k
    then actions[i].event.deviceId
    else ""
  }

  ghost function OwnerAt(owner: Owner, k: nat): string -> string {
    key => owner(k, key)
  }

  ghost function At(hash: string -> nat, count: nat, k: nat): string -> bool
    requires count > 0
  {
    device => Home(hash, device, count) == k
  }

  /** Each shard serves its own devices, and everything handled precedes everything waiting of the same device. */
  ghost predicate AllBehind(h: History, hash: string -> nat, owner: Owner) {
    && |h.state.queues| > 0 && Sound(h.state, |h.state.queues|)
    && InDeviceOrder(h.handled)
    && (forall k :: 0 <= k < |h.state.queues| ==>
          Behind(h.handled, h.state.queues[k], At(hash, |h.state.queues|, k), OwnerAt(owner, k)))
  }

  lemma PostStaysBehind(h: History, hash: string -> nat, e: Event, owner: Owner)
    requires AllBehind(h, hash, owner) && Owned(e, OwnerAt(owner, Home(hash, e.deviceId, |h.state.queues|)))
    ensures AllBehind(Act(h, hash, Post(e)), hash, owner)
  {
    if !h.state.closed {
      var k := Home(hash, e.deviceId, |h.state.queues|);
      EnqueueKeepsValid(h.state.queues[k], e);
      EnqueueStaysBehind(h.handled, h.state.queues[k], e, At(hash, |h.state.queues|, k), OwnerAt(owner, k));
    }
  }

  /** A delivery by one shard does not concern the others: they serve other devices. */
  lemma OtherShardsStayBehind(past: seq<Entry>, d: Entry, q: Queue, home: string -> bool, owner: string -> string)
    requires Behind(past, q, home, owner) && InDeviceOrder(past + [d]) && !home(d.event.deviceId)
    ensures Behind(past + [d], q, home, owner)
  {
  }

  lemma TurnStaysBehind(h: History, hash: string -> nat, k: nat, owner: Owner)
    requires AllBehind(h, hash, owner) && k < |h.state.queues|
    ensures AllBehind(Act(h, hash, Turn(k)), hash, owner)
  {
    var q, n := h.state.queues[k], |h.state.queues|;
    NextKeepsValid(q);
    if EventQueue.Next(q).1.Delivered? {
      var d := EventQueue.Next(q).1.entry;
      NextStaysBehind(h.handled, q, At(hash, n, k), OwnerAt(owner, k));
      assert At(hash, n, k)(d.event.deviceId) by { assert d in q.waiting; }
      forall i | 0 <= i < n && i != k
        ensures Behind(h.handled + [d], h.state.queues[i], At(hash, n, i), OwnerAt(owner, i))
      {
        OtherShardsStayBehind(h.handled, d, h.state.queues[i], At(hash, n, i), OwnerAt(owner, i));
      }
    }
  }

  lemma {:induction false} DispatchStaysBehind(count: nat, capacity: nat, hash: string -> nat, actions: seq<Action>, owner: Owner)
    requires count > 0
    requires forall i :: 0 <= i < |actions| && actions[i].Post? ==>
               Owned(actions[i].event, OwnerAt(owner, Home(hash, actions[i].event.deviceId, count)))
    ensures AllBehind(Dispatch(count, capacity, hash, actions), hash, owner)
  {
    if actions != [] {
      var before, last := actions[..|actions| - 1], actions[|actions| - 1];
      DispatchStaysBehind(count, capacity, hash, before, owner);
      var h := Dispatch(count, capacity, hash, before);
      assert Dispatch(count, capacity, hash, actions) == Act(h, hash, last);
      match last
      case Post(e) => PostStaysBehind(h, hash, e, owner);
      case Turn(k) => if k < count { TurnStaysBehind(h, hash, k, owner); }
      case Stop => StopStaysBehind(h, hash, owner);
    }
  }

  lemma StopStaysBehind(h: History, hash: string -> nat, owner: Owner)
    requires AllBehind(h, hash, owner)
    ensures AllBehind(Act(h, hash, Stop), hash, owner)
  {
  }

  /** However the shards interleave, the handlers see the events of each device in the order they were accepted. */
  lemma HandledInDeviceOrder(count: nat, capacity: nat, hash: string -> nat, actions: seq<Action>)
    requires count > 0 && PostsNameOneDevice(actions, hash, count)
    ensures InDeviceOrder(Dispatch(count, capacity, hash, actions).handled)
  {
    var owner: Owner := (k: nat, key: string) => PostOwner(actions, hash, count, k, key);
    DispatchStaysBehind(count, capacity, hash, actions, owner);
  }

  /** A publication concerns the one shard whose number leaves the remainder of the hash, and nothing else. */
  lemma PostedToItsShard(s: State, hash: string -> nat, e: Event, k: nat)
    requires k < |s.queues|
    ensures s.closed ==> Published(s, hash, e) == (s, EnqueueResult.Closed)
    ensures !s.closed ==> |Published(s, hash, e).0.queues| == |s.queues| && !Published(s, hash, e).0.closed
    ensures !s.closed && k == hash(e.deviceId) % |s.queues| ==>
              (Published(s, hash, e).0.queues[k], Published(s, hash, e).1) == EventQueue.Enqueue(s.queues[k], e)
    ensures !s.closed && k != hash(e.deviceId) % |s.queues| ==> Published(s, hash, e).0.queues[k] == s.queues[k]
  {
  }

  /** Stopping closes every shard and loses no entry; a second stop changes nothing. */
  lemma StoppedShards(s: State, k: nat)
    requires k < |s.queues| && (s.closed ==> s.queues[k].closed)
    ensures Stopped(s).closed && |Stopped(s).queues| == |s.queues|
    ensures Stopped(s).queues[k] == s.queues[k].(closed := true)
  {
  }

  /** A worker's turn concerns its own shard and nothing else. */
  lemma WorkedOnItsShard(s: State, k: nat, other: nat)
    requires k < |s.queues| && other < |s.queues|
    ensures |Worked(s, k).0.queues| == |s.queues| && Worked(s, k).0.closed == s.closed
    ensures if other == k then (Worked(s, k).0.queues[k], Worked(s, k).1) == EventQueue.Next(s.queues[k])
            else Worked(s, k).0.queues[other] == s.queues[other]
  {
  }

  /** Every shard is a valid queue, and is closed when the dispatcher is. */
  ghost predicate Together(s: State) {
    forall k :: 0 <= k < |s.queues| ==> EventQueue.Valid(s.queues[k]) && s.queues[k].closed == s.closed
  }

  lemma ActsTogether(h: History, hash: string -> nat, a: Action)
    requires |h.state.queues| > 0 && Together(h.state)
    ensures Together(Act(h, hash, a).state)
    ensures a == Stop || h.state.closed ==> Act(h, hash, a).state.closed
  {
    match a
    case Post(e) =>
      var k := Home(hash, e.deviceId, |h.state.queues|);
      assert EventQueue.Valid(h.state.queues[k]);
      EnqueueKeepsValid(h.state.queues[k], e);
    case Turn(k) =>
      if k < |h.state.queues| {
        assert EventQueue.Valid(h.state.queues[k]);
        NextKeepsValid(h.state.queues[k]);
      }
    case Stop =>
  }

  lemma {:induction false} ClosedTogether(count: nat, capacity: nat, hash: string -> nat, actions: seq<Action>)
    requires count > 0
    ensures Together(Dispatch(count, capacity, hash, actions).state)
    ensures Stop in actions ==> Dispatch(count, capacity, hash, actions).state.closed
  {
    if actions != [] {
      var before, last := actions[..|actions| - 1], actions[|actions| - 1];
      ClosedTogether(count, capacity, hash, before);
      assert actions == before + [last];
      var h := Dispatch(count, capacity, hash, before);
      ActsTogether(h, hash, last);
      assert Dispatch(count, capacity, hash, actions) == Act(h, hash, last);
    }
  }

  /** Once stopped, in any run: nothing more is accepted, and a worker finishes exactly when its shard is empty. */
  lemma StopDrains(count: nat, capacity: nat, hash: string -> nat, actions: seq<Action>, e: Event, k: nat)
    requires count > 0 && Stop in actions && k < count
    ensures var s := Dispatch(count, capacity, hash, actions).state;
            && Published(s, hash, e) == (s, EnqueueResult.Closed)
            && (Worked(s, k).1 == Drained <==> s.queues[k].waiting == [])
            && (s.queues[k].waiting != [] ==> Worked(s, k).1.Delivered? && Worked(s, k).1.entry in s.queues[k].waiting)
  {
    ClosedTogether(count, capacity, hash, actions);
    var q := Dispatch(count, capacity, hash, actions).state.queues[k];
    assert EventQueue.Valid(q) && q.closed;
    if q.waiting != [] {
      NextDelivers(q);
    }
  }
}
