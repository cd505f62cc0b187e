/**
 Whole runs of one shard, and of a dispatcher made of several: what any interleaving of
 publications, deliveries and shutdowns guarantees about order and about loss.
 */
module EventRuns {
  import opened EventQueue

  datatype Step = Publish(event: Event) | Deliver | Shutdown

  /**
   A run so far. `accepted[o - 1]` lists the events that went into the entry with order o: the
   publication that created it, followed by those merged into it.
   */
  datatype Trace = Trace(queue: Queue, delivered: seq<Entry>, accepted: seq<seq<Event>>)

  function Record(t: Trace, e: Event): seq<seq<Event>> {
    match Enqueue(t.queue, e).1
    case Accepted => t.accepted + [[e]]
    case Merged =>
      var o := t.queue.waiting[KeyIndex(t.queue.waiting, e.coalesceKey)].order;
      if 1 <= o <= |t.accepted| then t.accepted[o - 1 := t.accepted[o - 1] + [e]] else t.accepted
    case _ => t.accepted
  }

  function Exec(t: Trace, s: Step): Trace {
    match s
    case Publish(e) => Trace(Enqueue(t.queue, e).0, t.delivered, Record(t, e))
    case Deliver =>
      var (q, r) := Next(t.queue);
      Trace(q, if r.Delivered? then t.delivered + [r.entry] else t.delivered, t.accepted)
    case Shutdown => t.(queue := Close(t.queue))
  }

  function Run(capacity: nat, steps: seq<Step>): Trace {
    if steps == [] then Trace(Empty(capacity), [], [])
    else Exec(Run(capacity, steps[..|steps| - 1]), steps[|steps| - 1])
  }

  lemma {:induction false} RunIsValid(capacity: nat, steps: seq<Step>)
    ensures Valid(Run(capacity, steps).queue)
    ensures |Run(capacity, steps).accepted| == Run(capacity, steps).queue.nextOrder
  {
    if steps != [] {
      RunIsValid(capacity, steps[..|steps| - 1]);
      ExecKeepsValid(Run(capacity, steps[..|steps| - 1]), steps[|steps| - 1]);
    }
  }

  lemma ExecKeepsValid(t: Trace, s: Step)
    requires Valid(t.queue) && |t.accepted| == t.queue.nextOrder
    ensures Valid(Exec(t, s).queue)
    ensures |Exec(t, s).accepted| == Exec(t, s).queue.nextOrder
  {
    match s
    case Publish(e) => EnqueueKeepsValid(t.queue, e);
    case Deliver => NextKeepsValid(t.queue);
    case Shutdown =>
  }

  // ----- order -----

  /** Equal coalesce keys name one property, hence one device. */
  ghost predicate KeysNameOneDevice(steps: seq<Step>) {
    forall i, j ::
      (&& 0 <= i < |steps| && 0 <= j < |steps| && steps[i].Publish? && steps[j].Publish?
       && steps[i].event.coalesceKey != "" && steps[i].event.coalesceKey == steps[j].event.coalesceKey) ==>
        steps[i].event.deviceId == steps[j].event.deviceId
  }

  /** The device a coalesce key belongs to. */
  ghost function OwnerOf(steps: seq<Step>, key: string): string {
    if exists i :: 0 <= i < |steps| && steps[i].Publish? && steps[i].event.coalesceKey == key then
      var i :| 0 <= i < |steps| && steps[i].Publish? && steps[i].event.coalesceKey == key;
      steps[i].event.deviceId
    else ""
  }

  ghost predicate Owned(e: Event, owner: string -> string) {
    e.coalesceKey != "" ==> owner(e.coalesceKey) == e.deviceId
  }

  ghost predicate InDeviceOrder(s: seq<Entry>) {
    forall i, j :: 0 <= i < j < |s| && s[i].event.deviceId == s[j].event.deviceId ==>
      s[i].order < s[j].order
  }

  /** Whatever was delivered precedes whatever of the same device still waits in this shard. */
  ghost predicate Behind(past: seq<Entry>, q: Queue, home: string -> bool, owner: string -> string) {
    && InDeviceOrder(past)
    && (forall p :: p in past && home(p.event.deviceId) ==> p.order <= q.nextOrder)
    && (forall p, x :: p in past && x in q.waiting && p.event.deviceId == x.event.deviceId ==>
          p.order < x.order)
    && (forall x :: x in q.waiting ==> home(x.event.deviceId) && Owned(x.event, owner))
  }

  /** A publication creates one entry at the end of the order, or keeps every entry's device and order. */
  lemma EnqueueEntries(q: Queue, e: Event, owner: string -> string)
    requires Valid(q) && Owned(e, owner)
    requires forall x :: x in q.waiting ==> Owned(x.event, owner)
    ensures forall x :: x in Enqueue(q, e).0.waiting ==>
              && Owned(x.event, owner)
              && ((x.order == q.nextOrder + 1 && x.event.deviceId == e.deviceId)
                  || exists y :: y in q.waiting && y.order == x.order && y.event.deviceId == x.event.deviceId)
  {
    var n := e.(priority := Normalize(e.priority));
    var (q', r) := Enqueue(q, e);
    if r == Accepted {
      InsertMembers(q.waiting, Entry(n, q.nextOrder + 1));
    } else if r == Merged {
      var i := KeyIndex(q.waiting, n.coalesceKey);
      MergeMembers(q.waiting, i, n);
      assert q.waiting[i] in q.waiting;
    }
  }

  lemma EnqueueStaysBehind(past: seq<Entry>, q: Queue, e: Event, home: string -> bool, owner: string -> string)
    requires Valid(q) && Owned(e, owner) && home(e.deviceId) && Behind(past, q, home, owner)
    ensures Behind(past, Enqueue(q, e).0, home, owner)
  {
    EnqueueEntries(q, e, owner);
  }

  lemma NextStaysBehind(past: seq<Entry>, q: Queue, home: string -> bool, owner: string -> string)
    requires Valid(q) && Behind(past, q, home, owner) && Next(q).1.Delivered?
    ensures Behind(past + [Next(q).1.entry], Next(q).0, home, owner)
  {
    NextDelivers(q);
    var i := FirstReady(q.waiting, 0);
    var d := q.waiting[i];
    forall x | x in Without(q.waiting, i)
      ensures x in q.waiting && x.order != d.order
    {
      WithoutKeepsValid(q.waiting, i, q.nextOrder);
    }
  }

  lemma {:induction false} RunStaysBehind(capacity: nat, steps: seq<Step>, owner: string -> string)
    requires forall i :: 0 <= i < |steps| && steps[i].Publish? ==> Owned(steps[i].event, owner)
    ensures Behind(Run(capacity, steps).delivered, Run(capacity, steps).queue, _ => true, owner)
  {
    if steps != [] {
      var before, last := steps[..|steps| - 1], steps[|steps| - 1];
      RunStaysBehind(capacity, before, owner);
      var t := Run(capacity, before);
      RunIsValid(capacity, before);
      match last
      case Publish(e) => EnqueueStaysBehind(t.delivered, t.queue, e, _ => true, owner);
      case Deliver => if Next(t.queue).1.Delivered? { NextStaysBehind(t.delivered, t.queue, _ => true, owner); }
      case Shutdown =>
    }
  }

  /**
   Per-device order over a whole run: the entries of one device leave the shard in the order in
   which they were accepted, whatever priorities, upgrades and merges happened on the way.
   */
  lemma DeliveredInDeviceOrder(capacity: nat, steps: seq<Step>)
    requires KeysNameOneDevice(steps)
    ensures InDeviceOrder(Run(capacity, steps).delivered)
  {
    RunStaysBehind(capacity, steps, key => OwnerOf(steps, key));
  }

  lemma RunStep(capacity: nat, steps: seq<Step>, last: Step)
    ensures Run(capacity, steps + [last]) == Exec(Run(capacity, steps), last)
  {
    assert (steps + [last])[..|steps|] == steps;
  }

  lemma FirstIsDelivered(q: Queue)
    requires q.waiting != [] && !HasEarlier(q.waiting, q.waiting[0])
    ensures Next(q) == (q.(waiting := q.waiting[1..]), Delivered(q.waiting[0]))
  {
    assert FirstReady(q.waiting, 0) == 0;
    assert Without(q.waiting, 0) == q.waiting[1..];
  }

  // A shared key: one device is waiting under it, another device publishes, and then publishes under it too.

  function Early(a: string, key: string): Event { Event(a, "", 0, Low, key, "", 0) }

  function Other(b: string): Event { Event(b, "", 0, Normal, "", "", 0) }

  function Stolen(b: string, key: string): Event { Event(b, "", 0, Low, key, "", 0) }

  function Sharing(a: string, b: string, key: string): seq<Step> {
    [Publish(Early(a, key)), Publish(Other(b)), Deliver, Publish(Stolen(b, key)), Deliver]
  }

  /** One step from a known queue, and what it delivers. */
  ghost predicate Leads(q: Queue, s: Step, q': Queue, out: seq<Entry>) {
    match s
    case Publish(e) => q' == Enqueue(q, e).0 && out == []
    case Deliver => Next(q).1.Delivered? && q' == Next(q).0 && out == [Next(q).1.entry]
    case Shutdown => false
  }

  /** A chain of queues is the run's chain of queues if every link is one step. */
  lemma {:induction false} Reaches(steps: seq<Step>, q: seq<Queue>, out: seq<seq<Entry>>)
    requires |q| == |steps| + 1 && |out| == |steps| && q[0] == Empty(4)
    requires forall i :: 0 <= i < |steps| ==> Leads(q[i], steps[i], q[i + 1], out[i])
    ensures Run(4, steps).queue == q[|steps|] && Run(4, steps).delivered == Flatten(out)
  {
    if steps != [] {
      var n := |steps| - 1;
      Reaches(steps[..n], q[..n + 1], out[..n]);
      assert Leads(q[n], steps[n], q[n + 1], out[n]);
    }
  }

  function Flatten(parts: seq<seq<Entry>>): seq<Entry> {
    if parts == [] then [] else Flatten(parts[..|parts| - 1]) + parts[|parts| - 1]
  }

  lemma FlattenFive(out: seq<seq<Entry>>, x: Entry, y: Entry)
    requires |out| == 5 && out[0] == out[1] == out[3] == [] && out[2] == [x] && out[4] == [y]
    ensures Flatten(out) == [x, y]
  {
    assert out[..4][..3][..2][..1] == out[..1] && out[..4][..3][..2] == out[..2] && out[..4][..3] == out[..3];
    assert Flatten(out[..1]) == [] by { assert out[..1][..0] == []; }
    assert Flatten(out[..2]) == [];
    assert Flatten(out[..3]) == [x];
    assert Flatten(out[..4]) == [x];
  }

  lemma EarlyThenOther(a: string, b: string, key: string)
    requires a != b
    ensures var x, y := Entry(Early(a, key), 1), Entry(Other(b), 2);
            && Leads(Empty(4), Publish(Early(a, key)), Queue(false, 4, 1, [x]), [])
            && Leads(Queue(false, 4, 1, [x]), Publish(Other(b)), Queue(false, 4, 2, [y, x]), [])
            && Leads(Queue(false, 4, 2, [y, x]), Deliver, Queue(false, 4, 2, [x]), [y])
  {
    var x, y := Entry(Early(a, key), 1), Entry(Other(b), 2);
    HasEarlierMeans([y, x], y);
    FirstIsDelivered(Queue(false, 4, 2, [y, x]));
    assert [y, x][1..] == [x];
  }

  lemma ThenStolen(a: string, b: string, key: string, q: Queue)
    requires key != "" && q == Queue(false, 4, 2, [Entry(Early(a, key), 1)])
    ensures Leads(q, Publish(Stolen(b, key)), q.(waiting := [Entry(Stolen(b, key), 1)]), [])
    ensures Leads(q.(waiting := [Entry(Stolen(b, key), 1)]), Deliver, q.(waiting := []), [Entry(Stolen(b, key), 1)])
  {
    FirstIsDelivered(q.(waiting := [Entry(Stolen(b, key), 1)]));
    assert KeyWaiting(q.waiting, key) by { assert q.waiting[0].event.coalesceKey == key; }
  }

  lemma FiveSteps(s: seq<Step>, q1: Queue, q2: Queue, q3: Queue, q4: Queue, q5: Queue, x: Entry, y: Entry)
    requires |s| == 5
    requires Leads(Empty(4), s[0], q1, []) && Leads(q1, s[1], q2, []) && Leads(q2, s[2], q3, [x])
    requires Leads(q3, s[3], q4, []) && Leads(q4, s[4], q5, [y])
    ensures Run(4, s).delivered == [x, y]
  {
    var q, out := [Empty(4), q1, q2, q3, q4, q5], [[], [], [x], [], [y]];
    Reaches(s, q, out);
    FlattenFive(out, x, y);
  }

  /** Any key shared by two devices lets a waiting entry change device, and come out after a later event of its new one. */
  lemma SharedKeyBreaksOrder(a: string, b: string, key: string)
    requires a != b && key != ""
    ensures !InDeviceOrder(Run(4, Sharing(a, b, key)).delivered)
  {
    var early := Entry(Early(a, key), 1);
    var x, y, q3 := Entry(Other(b), 2), Entry(Stolen(b, key), 1), Queue(false, 4, 2, [early]);
    EarlyThenOther(a, b, key);
    ThenStolen(a, b, key, q3);
    FiveSteps(Sharing(a, b, key), Queue(false, 4, 1, [early]), q3.(waiting := [x, early]), q3,
              q3.(waiting := [y]), q3.(waiting := []), x, y);
    assert [x, y][0].order == 2 && [x, y][1].order == 1;
  }

  /** The device and key of every publication with a key is one of the pairs that publishers use. */
  ghost predicate Uses(steps: seq<Step>, pairs: set<(string, string)>) {
    forall i :: 0 <= i < |steps| && steps[i].Publish? && steps[i].event.coalesceKey != "" ==>
      (steps[i].event.deviceId, steps[i].event.coalesceKey) in pairs
  }

  ghost predicate OneDevicePerKey(pairs: set<(string, string)>) {
    forall p, q :: p in pairs && q in pairs && p.1 != "" && p.1 == q.1 ==> p.0 == q.0
  }

  ghost predicate AlwaysInOrder(pairs: set<(string, string)>) {
    forall capacity: nat, steps :: Uses(steps, pairs) ==> InDeviceOrder(Run(capacity, steps).delivered)
  }

  /** Whatever pairs of device and key are in use, every run keeps device order exactly if no key has two devices. */
  lemma OrderNeedsOneDevicePerKey(pairs: set<(string, string)>)
    ensures AlwaysInOrder(pairs) <==> OneDevicePerKey(pairs)
  {
    if OneDevicePerKey(pairs) {
      forall capacity: nat, steps | Uses(steps, pairs)
        ensures InDeviceOrder(Run(capacity, steps).delivered)
      {
        assert KeysNameOneDevice(steps);
        DeliveredInDeviceOrder(capacity, steps);
      }
    } else {
      var p, q :| p in pairs && q in pairs && p.1 != "" && p.1 == q.1 && p.0 != q.0;
      SharedKeyBreaksOrder(p.0, q.0, p.1);
      assert Uses(Sharing(p.0, q.0, p.1), pairs);
    }
  }

  // ----- conservation -----

  /** The highest priority among the events, unknown ones counting as Normal. */
  function Highest(events: seq<Event>): (p: Priority)
    requires events != []
    ensures !p.Other?
  {
    var last := Normalize(events[|events| - 1].priority);
    if |events| == 1 then last
    else
      var earlier := Highest(events[..|events| - 1]);
      if Greater(last, earlier) then last else earlier
  }

  /** It is the priority of one of the events, and none is served before it; one that is none of the four counts as Normal. */
  lemma {:induction false} HighestIsOne(events: seq<Event>) returns (k: nat)
    requires events != []
    ensures k < |events| && Highest(events) == if events[k].priority.Other? then Normal else events[k].priority
    ensures forall i :: 0 <= i < |events| ==> AtLeast(Highest(events), events[i].priority)
  {
    k := |events| - 1;
    if |events| > 1 {
      var j := HighestIsOne(events[..|events| - 1]);
      if Highest(events) == Highest(events[..|events| - 1]) {
        k := j;
      }
      forall i | 0 <= i < |events|
        ensures AtLeast(Highest(events), events[i].priority)
      {
        assert i < |events| - 1 ==> events[..|events| - 1][i] == events[i];
      }
    }
  }

  /** Last write wins on everything but the priority. */
  function Fold(events: seq<Event>): Event
    requires events != []
  {
    events[|events| - 1].(priority := Highest(events))
  }

  ghost predicate Carries(x: Entry, accepted: seq<seq<Event>>) {
    1 <= x.order <= |accepted| && accepted[x.order - 1] != [] && x.event == Fold(accepted[x.order - 1])
  }

  ghost predicate Holds(s: seq<Entry>, order: nat) {
    exists x :: x in s && x.order == order
  }

  /** Every accepted publication sits in exactly one place, together with everything merged into it. */
  ghost predicate Conserved(t: Trace) {
    && Valid(t.queue)
    && |t.accepted| == t.queue.nextOrder == |t.delivered| + |t.queue.waiting|
    && DistinctOrders(t.delivered)
    && (forall d, x :: d in t.delivered && x in t.queue.waiting ==> d.order != x.order)
    && (forall o: nat :: 1 <= o <= |t.accepted| ==> Holds(t.delivered, o) || Holds(t.queue.waiting, o))
    && (forall x :: x in t.delivered || x in t.queue.waiting ==> Carries(x, t.accepted))
  }

  lemma FoldExtends(events: seq<Event>, e: Event)
    requires events != []
    ensures var n := e.(priority := Normalize(e.priority));
            var p := Fold(events).priority;
            Fold(events + [e]) == if Greater(n.priority, p) then n else n.(priority := p)
  {
    assert (events + [e])[..|events|] == events;
  }

  lemma AcceptConserves(t: Trace, e: Event)
    requires Conserved(t) && Enqueue(t.queue, e).1 == Accepted
    ensures Conserved(Exec(t, Publish(e)))
  {
    var n, t' := e.(priority := Normalize(e.priority)), Exec(t, Publish(e));
    var added := Entry(n, t.queue.nextOrder + 1);
    ExecKeepsValid(t, Publish(e));
    InsertMembers(t.queue.waiting, added);
    forall x | x in t'.delivered || x in t'.queue.waiting
      ensures Carries(x, t'.accepted)
    {
      assert x == added || Carries(x, t.accepted);
    }
    forall o: nat | 1 <= o <= |t'.accepted|
      ensures Holds(t'.delivered, o) || Holds(t'.queue.waiting, o)
    {
      assert o == added.order || Holds(t.delivered, o) || Holds(t.queue.waiting, o);
    }
  }

  /** The merged entry now carries one event more; the other entries carry what they carried. */
  lemma MergeCarries(w: seq<Entry>, i: nat, e: Event, accepted: seq<seq<Event>>)
    requires i < |w| && DistinctOrders(w) && 1 <= w[i].order <= |accepted|
    requires forall x :: x in w ==> Carries(x, accepted)
    ensures var o := w[i].order;
            forall x :: x in MergeInto(w, i, e.(priority := Normalize(e.priority))) ==>
              Carries(x, accepted[o - 1 := accepted[o - 1] + [e]])
  {
    var n, o := e.(priority := Normalize(e.priority)), w[i].order;
    assert Carries(w[i], accepted) by { assert w[i] in w; }
    MergeReplaces(w, i, n);
    FoldExtends(accepted[o - 1], e);
    forall x | x in MergeInto(w, i, n)
      ensures Carries(x, accepted[o - 1 := accepted[o - 1] + [e]])
    {
      if x.order != o {
        assert Carries(x, accepted);
      }
    }
  }

  lemma MergeHolds(w: seq<Entry>, i: nat, e: Event, order: nat)
    requires i < |w| && DistinctOrders(w)
    ensures Holds(MergeInto(w, i, e), order) <==> Holds(w, order)
  {
    MergeReplaces(w, i, e);
    var merged := Entry(e.(priority := if Greater(e.priority, w[i].event.priority) then e.priority else w[i].event.priority), w[i].order);
    assert merged in MergeInto(w, i, e) && w[i] in w;
    if Holds(w, order) && order != w[i].order {
      var x :| x in w && x.order == order;
      assert x in MergeInto(w, i, e);
    }
  }

  lemma MergeConserves(t: Trace, e: Event)
    requires Conserved(t) && Enqueue(t.queue, e).1 == Merged
    ensures Conserved(Exec(t, Publish(e)))
  {
    var n, w, i := e.(priority := Normalize(e.priority)), t.queue.waiting, KeyIndex(t.queue.waiting, e.coalesceKey);
    var o, w' := w[i].order, MergeInto(w, i, n);
    var accepted' := t.accepted[o - 1 := t.accepted[o - 1] + [e]];
    ExecKeepsValid(t, Publish(e));
    assert Exec(t, Publish(e)) == Trace(t.queue.(waiting := w'), t.delivered, accepted');
    assert w[i] in w;
    MergeCarries(w, i, e, t.accepted);
    forall x | x in t.delivered
      ensures Carries(x, accepted') && forall y :: y in w' ==> x.order != y.order
    {
      assert Carries(x, t.accepted);
      MergeReplaces(w, i, n);
    }
    forall order: nat | 1 <= order <= |accepted'|
      ensures Holds(t.delivered, order) || Holds(w', order)
    {
      MergeHolds(w, i, n, order);
    }
    assert |w'| == |w| by { MergeReplaces(w, i, n); }
  }

  lemma AppendKeepsDistinct(s: seq<Entry>, x: Entry)
    requires DistinctOrders(s) && forall y :: y in s ==> y.order != x.order
    ensures DistinctOrders(s + [x])
    ensures forall y :: y in s + [x] <==> y in s || y == x
  {
  }

  lemma DeliverConserves(t: Trace)
    requires Conserved(t)
    ensures Conserved(Exec(t, Deliver))
  {
    var w, i := t.queue.waiting, FirstReady(t.queue.waiting, 0);
    ExecKeepsValid(t, Deliver);
    if i < |w| {
      MoveConserves(t, i);
    }
  }

  lemma MoveConserves(t: Trace, i: nat)
    requires Conserved(t) && i < |t.queue.waiting|
    requires ValidWaiting(Without(t.queue.waiting, i), t.queue.nextOrder)
    ensures Conserved(Trace(t.queue.(waiting := Without(t.queue.waiting, i)), t.delivered + [t.queue.waiting[i]], t.accepted))
  {
    var w, d := t.queue.waiting, t.delivered;
    var w', d' := Without(w, i), d + [w[i]];
    assert w[i] in w;
    WithoutMembers(w, i);
    AppendKeepsDistinct(d, w[i]);
    assert w[i] in d';
    forall o: nat | 1 <= o <= |t.accepted|
      ensures Holds(d', o) || Holds(w', o)
    {
      if Holds(d, o) {
        var x :| x in d && x.order == o;
        assert x in d';
      } else if o != w[i].order {
        var x :| x in w && x.order == o;
        assert x in w';
      }
    }
  }

  /**
   Nothing is lost or duplicated in any run: what was accepted without a merge is delivered or
   pending, exactly once, carrying the last payload merged into it and the highest of the priorities.
   */
  lemma {:induction false} NothingLost(capacity: nat, steps: seq<Step>)
    ensures Conserved(Run(capacity, steps))
  {
    if steps != [] {
      var before, last := steps[..|steps| - 1], steps[|steps| - 1];
      NothingLost(capacity, before);
      var t := Run(capacity, before);
      match last
      case Publish(e) =>
        var r := Enqueue(t.queue, e).1;
        if r == Accepted { AcceptConserves(t, e); } else if r == Merged { MergeConserves(t, e); }
      case Deliver => DeliverConserves(t);
      case Shutdown =>
    }
  }

  // ----- shutdown -----

  /** After a shutdown nothing more is accepted, in any continuation of the run. */
  lemma {:induction false} NothingAcceptedAfterShutdown(capacity: nat, steps: seq<Step>, k: nat)
    requires k < |steps| && steps[k] == Shutdown
    ensures Run(capacity, steps).queue.closed
    ensures Run(capacity, steps).accepted == Run(capacity, steps[..k]).accepted
    decreases |steps|
  {
    var before := steps[..|steps| - 1];
    if k < |steps| - 1 {
      NothingAcceptedAfterShutdown(capacity, before, k);
      assert before[..k] == steps[..k];
    }
  }

  lemma DeliverCounts(t: Trace, t': Trace)
    requires Valid(t.queue) && t' == Exec(t, Deliver)
    ensures t'.queue.closed == t.queue.closed
    ensures t.queue.waiting != [] ==>
              |t'.queue.waiting| == |t.queue.waiting| - 1 && |t'.delivered| == |t.delivered| + 1
    ensures t.queue.closed ==> (Next(t.queue).1 == Drained <==> t.queue.waiting == [])
  {
    if t.queue.waiting != [] {
      NextDelivers(t.queue);
    }
  }

  /** n deliveries with nothing in between. */
  function Delivers(n: nat): seq<Step> {
    if n == 0 then [] else Delivers(n - 1) + [Deliver]
  }

  /** How many entries wait, how many were delivered, and whether the shard is closed. */
  function Counts(capacity: nat, steps: seq<Step>): (nat, nat, bool) {
    var t := Run(capacity, steps);
    (|t.queue.waiting|, |t.delivered|, t.queue.closed)
  }

  lemma DeliverAfter(capacity: nat, steps: seq<Step>, c: (nat, nat, bool))
    requires Counts(capacity, steps) == c && c.0 > 0
    ensures Counts(capacity, steps + [Deliver]) == (c.0 - 1, c.1 + 1, c.2)
  {
    RunStep(capacity, steps, Deliver);
    RunIsValid(capacity, steps);
    DeliverCounts(Run(capacity, steps), Run(capacity, steps + [Deliver]));
  }

  lemma DeliversAppend(steps: seq<Step>, n: nat)
    ensures steps + Delivers(0) == steps
    ensures n > 0 ==> steps + Delivers(n) == steps + Delivers(n - 1) + [Deliver]
  {
  }

  lemma OneMoreDelivered(capacity: nat, steps: seq<Step>, steps': seq<Step>, c: (nat, nat, bool))
    requires steps' == steps + [Deliver] && Counts(capacity, steps) == c && c.0 > 0
    ensures Counts(capacity, steps') == (c.0 - 1, c.1 + 1, c.2)
  {
    DeliverAfter(capacity, steps, c);
  }

  lemma {:induction false} DrainCounts(capacity: nat, steps: seq<Step>, n: nat, c: (nat, nat, bool))
    requires Counts(capacity, steps) == c && n <= c.0
    ensures Counts(capacity, steps + Delivers(n)) == (c.0 - n, c.1 + n, c.2)
  {
    DeliversAppend(steps, n);
    if n == 0 {
      assert Delivers(0) == [];
    } else {
      DrainCounts(capacity, steps, n - 1, c);
      OneMoreDelivered(capacity, steps + Delivers(n - 1), steps + Delivers(n), (c.0 - (n - 1), c.1 + (n - 1), c.2));
    }
  }

  /** A closed shard hands out every pending entry before it reports that it is drained, and not later. */
  lemma DrainsBeforeStopping(capacity: nat, steps: seq<Step>, n: nat)
    requires Run(capacity, steps).queue.closed && n <= |Run(capacity, steps).queue.waiting|
    ensures |Run(capacity, steps + Delivers(n)).delivered| == |Run(capacity, steps).delivered| + n
    ensures Next(Run(capacity, steps + Delivers(n)).queue).1 == Drained <==> n == |Run(capacity, steps).queue.waiting|
  {
    DrainCounts(capacity, steps, n, Counts(capacity, steps));
    var t := Run(capacity, steps + Delivers(n));
    RunIsValid(capacity, steps + Delivers(n));
    DeliverCounts(t, Exec(t, Deliver));
  }
}
