/**
 The meaning of one event shard, without its indexes: a single list of waiting entries in
 priority order. The index maps, the four lists and the counter of the running shard are
 derived data; module EventShard proves that they compute exactly what is said here.
 */
module EventQueue {

  datatype Priority = Low | Normal | High | Critical | Other(name: string)

  /** Unknown priorities, and the zero value Other(""), count as Normal. */
  function Normalize(p: Priority): Priority {
    if p.Other? then Normal else p
  }

  function Rank(p: Priority): nat {
    match p
    case Critical => 4
    case High => 3
    case Normal => 2
    case Low => 1
    case Other(_) => 2
  }

  predicate Greater(left: Priority, right: Priority) {
    Rank(left) > Rank(right)
  }

  /** Served no later than: the order of the priorities, said without numbers. */
  predicate AtLeast(p: Priority, q: Priority) {
    match q
    case Critical => p == Critical
    case High => p == Critical || p == High
    case Normal => p != Low
    case Low => true
    case Other(_) => p != Low
  }

  // payload and enqueuedAt are opaque to the queue
  datatype Event = Event(deviceId: string, traceId: string, payload: int, priority: Priority,
                         coalesceKey: string, dedupKey: string, enqueuedAt: int)

  datatype Entry = Entry(event: Event, order: nat)

  datatype Queue = Queue(closed: bool, capacity: int, nextOrder: nat, waiting: seq<Entry>)

  datatype EnqueueResult = Accepted | Merged | Closed | Duplicate | Full

  datatype NextResult = Delivered(entry: Entry) | Blocked | Drained

  // ----- the operations -----

  /** An event that takes part in low-priority deduplication. */
  predicate Deduplicates(e: Event) {
    e.priority == Low && e.dedupKey != ""
  }

  predicate DuplicateWaiting(w: seq<Entry>, key: string) {
    exists i :: 0 <= i < |w| && Deduplicates(w[i].event) && w[i].event.dedupKey == key
  }

  predicate KeyWaiting(w: seq<Entry>, key: string) {
    exists i :: 0 <= i < |w| && w[i].event.coalesceKey == key
  }

  /** Position of the first waiting entry with this coalesce key. */
  function KeyIndex(w: seq<Entry>, key: string): (i: nat)
    requires KeyWaiting(w, key)
    ensures i < |w| && w[i].event.coalesceKey == key
    ensures forall j :: 0 <= j < i ==> w[j].event.coalesceKey != key
  {
    if w[0].event.coalesceKey == key then 0
    else
      assert KeyWaiting(w[1..], key) by {
        var k :| 0 <= k < |w| && w[k].event.coalesceKey == key;
        assert w[1..][k - 1] == w[k];
      }
      1 + KeyIndex(w[1..], key)
  }

  /** Insert behind every entry of the same or a higher priority. */
  function Insert(w: seq<Entry>, e: Entry): seq<Entry> {
    if w == [] || Rank(w[0].event.priority) < Rank(e.event.priority) then [e] + w
    else [w[0]] + Insert(w[1..], e)
  }

  function Without(w: seq<Entry>, i: nat): seq<Entry>
    requires i < |w|
  {
    w[..i] + w[i + 1..]
  }

  /** Last write wins, except that a merge never lowers the priority of the waiting entry. */
  function MergeInto(w: seq<Entry>, i: nat, e: Event): seq<Entry>
    requires i < |w|
  {
    if Greater(e.priority, w[i].event.priority)
    then Insert(Without(w, i), Entry(e, w[i].order))
    else w[i := Entry(e.(priority := w[i].event.priority), w[i].order)]
  }

  function Enqueue(q: Queue, raw: Event): (Queue, EnqueueResult) {
    var e := raw.(priority := Normalize(raw.priority));
    if q.closed then (q, Closed)
    else if Deduplicates(e) && DuplicateWaiting(q.waiting, e.dedupKey) then (q, Duplicate)
    else if e.coalesceKey != "" && KeyWaiting(q.waiting, e.coalesceKey) then
      (q.(waiting := MergeInto(q.waiting, KeyIndex(q.waiting, e.coalesceKey), e)), Merged)
    else if |q.waiting| >= q.capacity then (q, Full)
    else
      (q.(nextOrder := q.nextOrder + 1,
          waiting := Insert(q.waiting, Entry(e, q.nextOrder + 1))), Accepted)
  }

  /** An earlier event of the same device is still waiting. */
  predicate HasEarlier(w: seq<Entry>, e: Entry) {
    w != [] && (Precedes(w[0], e) || HasEarlier(w[1..], e))
  }

  predicate Precedes(x: Entry, e: Entry) {
    x.event.deviceId == e.event.deviceId && x.order < e.order
  }

  lemma {:induction false} HasEarlierMeans(w: seq<Entry>, e: Entry)
    ensures HasEarlier(w, e) <==> exists x :: x in w && Precedes(x, e)
  {
    if w != [] {
      HasEarlierMeans(w[1..], e);
      assert forall x :: x in w <==> x == w[0] || x in w[1..];
    }
  }

  /** First position at or after `from` whose entry is not held back by its own device. */
  function FirstReady(w: seq<Entry>, from: nat): (i: nat)
    requires from <= |w|
    ensures from <= i <= |w|
    decreases |w| - from
  {
    if from < |w| && HasEarlier(w, w[from]) then FirstReady(w, from + 1) else from
  }

  lemma {:induction false} FirstReadyIsFirst(w: seq<Entry>, from: nat)
    requires from <= |w|
    ensures forall j :: from <= j < FirstReady(w, from) ==> HasEarlier(w, w[j])
    ensures FirstReady(w, from) < |w| ==> !HasEarlier(w, w[FirstReady(w, from)])
    decreases |w| - from
  {
    if from < |w| && HasEarlier(w, w[from]) {
      FirstReadyIsFirst(w, from + 1);
    }
  }

  function Next(q: Queue): (Queue, NextResult) {
    var i := FirstReady(q.waiting, 0);
    if i < |q.waiting| then (q.(waiting := Without(q.waiting, i)), Delivered(q.waiting[i]))
    else if q.closed then (q, Drained)
    else (q, Blocked)
  }

  function Close(q: Queue): Queue {
    q.(closed := true)
  }

  // ----- what every reachable queue satisfies -----

  ghost predicate Sorted(w: seq<Entry>) {
    forall i, j :: 0 <= i < j < |w| ==> Rank(w[i].event.priority) >= Rank(w[j].event.priority)
  }

  ghost predicate Normalized(w: seq<Entry>) {
    forall i :: 0 <= i < |w| ==> !w[i].event.priority.Other?
  }

  ghost predicate DistinctOrders(w: seq<Entry>) {
    forall i, j :: 0 <= i < j < |w| ==> w[i].order != w[j].order
  }

  ghost predicate OrdersWithin(w: seq<Entry>, limit: nat) {
    forall i :: 0 <= i < |w| ==> 1 <= w[i].order <= limit
  }

  ghost predicate DistinctKeys(w: seq<Entry>) {
    forall i, j :: 0 <= i < j < |w| && w[i].event.coalesceKey != "" ==>
      w[i].event.coalesceKey != w[j].event.coalesceKey
  }

  ghost predicate DistinctDedup(w: seq<Entry>) {
    forall i, j :: 0 <= i < j < |w| && Deduplicates(w[i].event) && Deduplicates(w[j].event) ==>
      w[i].event.dedupKey != w[j].event.dedupKey
  }

  ghost predicate ValidWaiting(w: seq<Entry>, limit: nat) {
    && Sorted(w) && Normalized(w) && DistinctOrders(w) && OrdersWithin(w, limit)
    && DistinctKeys(w) && DistinctDedup(w)
  }

  ghost predicate Valid(q: Queue) {
    ValidWaiting(q.waiting, q.nextOrder) && |q.waiting| <= q.capacity
  }

  function Empty(capacity: int): Queue {
    Queue(false, capacity, 0, [])
  }

  // ----- list facts -----

  /** Insert puts the entry at the one position that keeps the priority order. */
  lemma {:induction false} InsertAt(w: seq<Entry>, e: Entry, n: nat)
    requires n <= |w|
    requires forall i :: 0 <= i < n ==> Rank(w[i].event.priority) >= Rank(e.event.priority)
    requires n < |w| ==> Rank(w[n].event.priority) < Rank(e.event.priority)
    ensures Insert(w, e) == w[..n] + [e] + w[n..]
  {
    if n > 0 {
      InsertAt(w[1..], e, n - 1);
      assert [w[0]] + (w[1..][..n - 1] + [e] + w[1..][n - 1..]) == w[..n] + [e] + w[n..];
    }
  }

  /** The insertion point: everything before ranks at least as high, and the next one lower. */
  function Slot(w: seq<Entry>, rank: nat): (n: nat)
    ensures n <= |w|
    ensures forall i :: 0 <= i < n ==> Rank(w[i].event.priority) >= rank
    ensures n < |w| ==> Rank(w[n].event.priority) < rank
  {
    if w == [] || Rank(w[0].event.priority) < rank then 0 else 1 + Slot(w[1..], rank)
  }

  /** Where each entry of the result comes from. */
  lemma InsertPositions(w: seq<Entry>, e: Entry, n: nat)
    requires n == Slot(w, Rank(e.event.priority))
    ensures |Insert(w, e)| == |w| + 1 && Insert(w, e)[n] == e
    ensures forall k :: 0 <= k < n ==> Insert(w, e)[k] == w[k]
    ensures forall k :: n < k <= |w| ==> Insert(w, e)[k] == w[k - 1]
  {
    InsertAt(w, e, n);
  }

  lemma InsertKeepsSorted(w: seq<Entry>, e: Entry)
    requires Sorted(w)
    ensures Sorted(Insert(w, e))
  {
    var n := Slot(w, Rank(e.event.priority));
    InsertPositions(w, e, n);
    assert forall i :: n <= i < |w| ==> Rank(w[i].event.priority) <= Rank(w[n].event.priority);
  }

  /** Two entries of the result are two entries of the original, in order, or one of them is the new one. */
  lemma InsertPair(w: seq<Entry>, e: Entry, i: nat, j: nat) returns (a: nat, b: nat)
    requires i < j <= |w|
    ensures |Insert(w, e)| == |w| + 1
    ensures (a < b < |w| && Insert(w, e)[i] == w[a] && Insert(w, e)[j] == w[b])
         || (a < |w| && Insert(w, e)[i] == w[a] && Insert(w, e)[j] == e)
         || (a < |w| && Insert(w, e)[i] == e && Insert(w, e)[j] == w[a])
  {
    var n := Slot(w, Rank(e.event.priority));
    InsertPositions(w, e, n);
    a := if i == n then j - 1 else if i < n then i else i - 1;
    b := if j <= n then j else j - 1;
  }

  lemma InsertKeepsOrders(w: seq<Entry>, e: Entry)
    requires DistinctOrders(w) && forall i :: 0 <= i < |w| ==> w[i].order != e.order
    ensures DistinctOrders(Insert(w, e))
  {
    var w' := Insert(w, e);
    forall i, j | 0 <= i < j < |w'|
      ensures w'[i].order != w'[j].order
    {
      InsertPositions(w, e, Slot(w, Rank(e.event.priority)));
      var a, b := InsertPair(w, e, i, j);
    }
  }

  lemma InsertKeepsKeys(w: seq<Entry>, e: Entry)
    requires DistinctKeys(w) && (e.event.coalesceKey != "" ==> !KeyWaiting(w, e.event.coalesceKey))
    ensures DistinctKeys(Insert(w, e))
  {
    var w' := Insert(w, e);
    forall i, j | 0 <= i < j < |w'| && w'[i].event.coalesceKey != ""
      ensures w'[i].event.coalesceKey != w'[j].event.coalesceKey
    {
      InsertPositions(w, e, Slot(w, Rank(e.event.priority)));
      var a, b := InsertPair(w, e, i, j);
    }
  }

  lemma InsertKeepsDedup(w: seq<Entry>, e: Entry)
    requires DistinctDedup(w) && (Deduplicates(e.event) ==> !DuplicateWaiting(w, e.event.dedupKey))
    ensures DistinctDedup(Insert(w, e))
  {
    var w' := Insert(w, e);
    forall i, j | 0 <= i < j < |w'| && Deduplicates(w'[i].event) && Deduplicates(w'[j].event)
      ensures w'[i].event.dedupKey != w'[j].event.dedupKey
    {
      InsertPositions(w, e, Slot(w, Rank(e.event.priority)));
      var a, b := InsertPair(w, e, i, j);
    }
  }

  lemma InsertKeepsValid(w: seq<Entry>, e: Entry, limit: nat)
    requires ValidWaiting(w, limit)
    requires !e.event.priority.Other? && 1 <= e.order <= limit
    requires forall i :: 0 <= i < |w| ==> w[i].order != e.order
    requires e.event.coalesceKey != "" ==> !KeyWaiting(w, e.event.coalesceKey)
    requires Deduplicates(e.event) ==> !DuplicateWaiting(w, e.event.dedupKey)
    ensures ValidWaiting(Insert(w, e), limit)
  {
    InsertKeepsSorted(w, e);
    InsertKeepsOrders(w, e);
    InsertKeepsKeys(w, e);
    InsertKeepsDedup(w, e);
    InsertKeepsRange(w, e, limit);
  }

  lemma InsertKeepsRange(w: seq<Entry>, e: Entry, limit: nat)
    requires Normalized(w) && OrdersWithin(w, limit) && !e.event.priority.Other? && 1 <= e.order <= limit
    ensures Normalized(Insert(w, e)) && OrdersWithin(Insert(w, e), limit)
  {
    InsertPositions(w, e, Slot(w, Rank(e.event.priority)));
  }

  lemma WithoutKeepsValid(w: seq<Entry>, i: nat, limit: nat)
    requires ValidWaiting(w, limit) && i < |w|
    ensures ValidWaiting(Without(w, i), limit)
    ensures forall k :: 0 <= k < |w| - 1 ==> Without(w, i)[k] == w[if k < i then k else k + 1]
  {
    WithoutAt(w, i);
    WithoutKeepsOrder(w, i, limit);
    WithoutKeepsKeys(w, i);
  }

  lemma WithoutAt(w: seq<Entry>, i: nat)
    requires i < |w|
    ensures |Without(w, i)| == |w| - 1
    ensures forall k :: 0 <= k < |w| - 1 ==> Without(w, i)[k] == w[if k < i then k else k + 1]
  {
  }

  lemma WithoutKeepsOrder(w: seq<Entry>, i: nat, limit: nat)
    requires Sorted(w) && Normalized(w) && DistinctOrders(w) && OrdersWithin(w, limit) && i < |w|
    ensures var w' := Without(w, i);
            Sorted(w') && Normalized(w') && DistinctOrders(w') && OrdersWithin(w', limit)
  {
    WithoutAt(w, i);
  }

  lemma WithoutKeepsKeys(w: seq<Entry>, i: nat)
    requires DistinctKeys(w) && DistinctDedup(w) && i < |w|
    ensures DistinctKeys(Without(w, i)) && DistinctDedup(Without(w, i))
  {
    WithoutAt(w, i);
  }

  lemma MergeKeepsValid(w: seq<Entry>, i: nat, e: Event, limit: nat)
    requires ValidWaiting(w, limit) && i < |w|
    requires !e.priority.Other? && e.coalesceKey != "" && w[i].event.coalesceKey == e.coalesceKey
    requires Deduplicates(e) ==> !DuplicateWaiting(w, e.dedupKey)
    ensures ValidWaiting(MergeInto(w, i, e), limit) && |MergeInto(w, i, e)| == |w|
  {
    if Greater(e.priority, w[i].event.priority) {
      var rest := Without(w, i);
      WithoutKeepsValid(w, i, limit);
      assert forall k :: 0 <= k < |rest| ==> rest[k] == w[if k < i then k else k + 1];
      InsertKeepsValid(rest, Entry(e, w[i].order), limit);
      InsertPositions(rest, Entry(e, w[i].order), Slot(rest, Rank(e.priority)));
    }
  }

  lemma InsertMembers(w: seq<Entry>, e: Entry)
    ensures |Insert(w, e)| == |w| + 1
    ensures forall x :: x in Insert(w, e) <==> x == e || x in w
  {
    InsertAt(w, e, Slot(w, Rank(e.event.priority)));
    var n := Slot(w, Rank(e.event.priority));
    assert w == w[..n] + w[n..];
  }

  lemma WithoutMembers(w: seq<Entry>, i: nat)
    requires i < |w| && DistinctOrders(w)
    ensures |Without(w, i)| == |w| - 1
    ensures forall x :: x in Without(w, i) <==> x in w && x.order != w[i].order
  {
    forall x | x in w && x.order != w[i].order
      ensures x in Without(w, i)
    {
      var k :| 0 <= k < |w| && w[k] == x;
      assert Without(w, i)[if k < i then k else k - 1] == x;
    }
    forall x | x in Without(w, i)
      ensures x in w && x.order != w[i].order
    {
      var k :| 0 <= k < |w| - 1 && Without(w, i)[k] == x;
      assert w[if k < i then k else k + 1] == x;
    }
  }

  /** A merge replaces exactly the entry it merges into. */
  lemma MergeReplaces(w: seq<Entry>, i: nat, e: Event)
    requires i < |w| && DistinctOrders(w)
    ensures |MergeInto(w, i, e)| == |w|
    ensures var p := if Greater(e.priority, w[i].event.priority) then e.priority else w[i].event.priority;
            forall x :: x in MergeInto(w, i, e) <==>
              (x in w && x.order != w[i].order) || x == Entry(e.(priority := p), w[i].order)
  {
    WithoutMembers(w, i);
    if Greater(e.priority, w[i].event.priority) {
      InsertMembers(Without(w, i), Entry(e, w[i].order));
    } else {
      var e' := Entry(e.(priority := w[i].event.priority), w[i].order);
      var w' := w[i := e'];
      forall x ensures x in w' <==> (x in w && x.order != w[i].order) || x == e' {
        if x in w && x.order != w[i].order {
          var k :| 0 <= k < |w| && w[k] == x;
          assert w'[k] == x;
        }
        assert w'[i] == e';
      }
    }
  }

  /** A merge keeps the entry's order and leaves every other entry alone. */
  lemma MergeMembers(w: seq<Entry>, i: nat, e: Event)
    requires i < |w|
    ensures forall x :: x in MergeInto(w, i, e) ==>
              x in w || (x.order == w[i].order && x.event == e.(priority := x.event.priority))
  {
    if Greater(e.priority, w[i].event.priority) {
      var rest := Without(w, i);
      InsertAt(rest, Entry(e, w[i].order), Slot(rest, Rank(e.priority)));
    }
  }

  // ----- the keys that the running shard indexes -----

  ghost function DedupKeys(w: seq<Entry>): set<string> {
    set x | x in w && Deduplicates(x.event) :: x.event.dedupKey
  }

  /** The key by which an event takes part in deduplication, if it does. */
  function DedupKey(e: Event): set<string> {
    if Deduplicates(e) then {e.dedupKey} else {}
  }

  lemma DedupWaiting(w: seq<Entry>, k: string)
    ensures k in DedupKeys(w) <==> DuplicateWaiting(w, k)
  {
    if DuplicateWaiting(w, k) {
      var i :| 0 <= i < |w| && Deduplicates(w[i].event) && w[i].event.dedupKey == k;
      assert w[i] in w;
    }
  }

  lemma DedupAfterInsert(w: seq<Entry>, e: Entry)
    ensures |Insert(w, e)| == |w| + 1 && DedupKeys(Insert(w, e)) == DedupKeys(w) + DedupKey(e.event)
  {
    InsertMembers(w, e);
  }

  lemma DedupAfterWithout(w: seq<Entry>, i: nat)
    requires i < |w| && DistinctOrders(w) && DistinctDedup(w)
    ensures |Without(w, i)| == |w| - 1 && DedupKeys(Without(w, i)) == DedupKeys(w) - DedupKey(w[i].event)
  {
    WithoutMembers(w, i);
    assert w[i] in w;
    forall x | x in w && x.order != w[i].order && Deduplicates(x.event) && Deduplicates(w[i].event)
      ensures x.event.dedupKey != w[i].event.dedupKey
    {
      var k :| 0 <= k < |w| && w[k] == x;
    }
  }

  lemma DedupAfterMerge(w: seq<Entry>, i: nat, e: Event)
    requires i < |w| && DistinctOrders(w) && DistinctDedup(w)
    ensures var p := if Greater(e.priority, w[i].event.priority) then e.priority else w[i].event.priority;
            && |MergeInto(w, i, e)| == |w|
            && DedupKeys(MergeInto(w, i, e)) == DedupKeys(w) - DedupKey(w[i].event) + DedupKey(e.(priority := p))
  {
    MergeReplaces(w, i, e);
    DedupAfterWithout(w, i);
    WithoutMembers(w, i);
  }

  // ----- the invariant is kept by every operation -----

  lemma EnqueueKeepsValid(q: Queue, e: Event)
    requires Valid(q)
    ensures Valid(Enqueue(q, e).0)
  {
    var n := e.(priority := Normalize(e.priority));
    var (q', r) := Enqueue(q, e);
    if r == Merged {
      MergeKeepsValid(q.waiting, KeyIndex(q.waiting, n.coalesceKey), n, q.nextOrder);
    } else if r == Accepted {
      InsertKeepsValid(q.waiting, Entry(n, q.nextOrder + 1), q.nextOrder + 1);
      InsertPositions(q.waiting, Entry(n, q.nextOrder + 1), Slot(q.waiting, Rank(n.priority)));
    }
  }

  lemma NextKeepsValid(q: Queue)
    requires Valid(q)
    ensures Valid(Next(q).0)
  {
    var i := FirstReady(q.waiting, 0);
    if i < |q.waiting| {
      WithoutKeepsValid(q.waiting, i, q.nextOrder);
    }
  }

  // ----- what a single publication promises -----

  /** Why an event is not queued as a new entry, in the order in which the reasons are tried. */
  ghost predicate IsDuplicate(q: Queue, e: Event) {
    e.priority == Low && e.dedupKey != ""
    && exists x :: x in q.waiting && x.event.priority == Low && x.event.dedupKey == e.dedupKey
  }

  ghost predicate HasEntry(q: Queue, e: Event) {
    e.coalesceKey != "" && exists x :: x in q.waiting && x.event.coalesceKey == e.coalesceKey
  }

  /** An event is refused for exactly these reasons, and a refused event leaves no trace. */
  lemma RefusedOnlyFor(q: Queue, e: Event)
    ensures var r := Enqueue(q, e).1;
            && (r == Closed <==> q.closed)
            && (r == Duplicate <==> !q.closed && IsDuplicate(q, e))
            && (r == Merged <==> !q.closed && !IsDuplicate(q, e) && HasEntry(q, e))
            && (r == Full <==> !q.closed && !IsDuplicate(q, e) && !HasEntry(q, e) && |q.waiting| >= q.capacity)
            && (r == Closed || r == Duplicate || r == Full ==> Enqueue(q, e).0 == q)
  {
    if DuplicateWaiting(q.waiting, e.dedupKey) {
      var i :| 0 <= i < |q.waiting| && Deduplicates(q.waiting[i].event) && q.waiting[i].event.dedupKey == e.dedupKey;
      assert q.waiting[i] in q.waiting;
    }
    if KeyWaiting(q.waiting, e.coalesceKey) {
      var i :| 0 <= i < |q.waiting| && q.waiting[i].event.coalesceKey == e.coalesceKey;
      assert q.waiting[i] in q.waiting;
    }
  }

  /** What is stored of an event: everything as it came, and Normal for a priority that is none of the four. */
  predicate Keeps(stored: Event, raw: Event) {
    stored == raw.(priority := stored.priority) && if raw.priority.Other? then stored.priority == Normal else stored.priority == raw.priority
  }

  /** A new entry comes last in the order and stands directly behind the entries served no later. */
  lemma AcceptedComesLast(q: Queue, raw: Event) returns (e: Entry, n: nat)
    requires Valid(q) && Enqueue(q, raw).1 == Accepted
    ensures Keeps(e.event, raw) && forall x :: x in q.waiting ==> x.order < e.order
    ensures n <= |q.waiting| && Enqueue(q, raw).0.waiting == q.waiting[..n] + [e] + q.waiting[n..]
    ensures forall i :: 0 <= i < |q.waiting| ==> (i < n <==> AtLeast(q.waiting[i].event.priority, e.event.priority))
    ensures Enqueue(q, raw).0 == q.(waiting := Enqueue(q, raw).0.waiting, nextOrder := e.order)
  {
    e := Entry(raw.(priority := Normalize(raw.priority)), q.nextOrder + 1);
    n := Slot(q.waiting, Rank(e.event.priority));
    InsertAt(q.waiting, e, n);
    SlotIsByUrgency(q.waiting, e.event.priority);
  }

  /** The insertion point is where the entries end that are served no later. */
  lemma SlotIsByUrgency(w: seq<Entry>, p: Priority)
    requires Sorted(w) && Normalized(w) && !p.Other?
    ensures forall i :: 0 <= i < |w| ==> (i < Slot(w, Rank(p)) <==> AtLeast(w[i].event.priority, p))
  {
    var n := Slot(w, Rank(p));
    forall i | 0 <= i < |w|
      ensures i < n <==> AtLeast(w[i].event.priority, p)
    {
      if n < i { assert Rank(w[n].event.priority) >= Rank(w[i].event.priority); }
      RankIsUrgency(w[i].event.priority, p);
    }
  }

  lemma RankIsUrgency(p: Priority, q: Priority)
    requires !p.Other? && !q.Other?
    ensures AtLeast(p, q) <==> Rank(p) >= Rank(q)
  {
  }

  /**
   A merged event replaces the content of the one entry with its key. The entry keeps its order, and has
   the more urgent of the two priorities, where one that is none of the four counts as Normal.
   */
  lemma MergedIntoItsEntry(q: Queue, raw: Event) returns (x: Entry, y: Entry)
    requires Valid(q) && Enqueue(q, raw).1 == Merged
    ensures x in q.waiting && x.event.coalesceKey == raw.coalesceKey
    ensures forall z :: z in q.waiting && z.event.coalesceKey == raw.coalesceKey ==> z == x
    ensures y.order == x.order && y.event == raw.(priority := y.event.priority)
    ensures AtLeast(y.event.priority, x.event.priority) && AtLeast(y.event.priority, raw.priority)
    ensures y.event.priority == x.event.priority || Keeps(y.event, raw)
    ensures forall z :: z in Enqueue(q, raw).0.waiting <==> (z in q.waiting && z != x) || z == y
    ensures |Enqueue(q, raw).0.waiting| == |q.waiting| && Enqueue(q, raw).0.nextOrder == q.nextOrder
  {
    var e := raw.(priority := Normalize(raw.priority));
    var i := KeyIndex(q.waiting, e.coalesceKey);
    x := q.waiting[i];
    y := Entry(e.(priority := if Greater(e.priority, x.event.priority) then e.priority else x.event.priority), x.order);
    MergeReplaces(q.waiting, i, e);
    forall z | z in q.waiting
      ensures z.order == x.order || z.event.coalesceKey == raw.coalesceKey ==> z == x
    {
      var k :| 0 <= k < |q.waiting| && q.waiting[k] == z;
    }
  }

  // ----- what a single delivery promises -----

  /** Delivering takes out the delivered entry and nothing else. */
  lemma NextTakesOne(q: Queue)
    requires Valid(q) && Next(q).1.Delivered?
    ensures forall x :: x in Next(q).0.waiting <==> x in q.waiting && x != Next(q).1.entry
    ensures |Next(q).0.waiting| == |q.waiting| - 1 && Next(q).0 == q.(waiting := Next(q).0.waiting)
  {
    var i := FirstReady(q.waiting, 0);
    WithoutMembers(q.waiting, i);
    forall x | x in q.waiting && x.order == q.waiting[i].order
      ensures x == q.waiting[i]
    {
      var k :| 0 <= k < |q.waiting| && q.waiting[k] == x;
    }
  }

  /** Some entry is always ready: the earliest one of all. */
  lemma {:induction false} EarliestIsReady(w: seq<Entry>, k: nat) returns (i: nat)
    requires k < |w|
    ensures i <= k && forall j :: 0 <= j <= k ==> w[i].order <= w[j].order
  {
    if k == 0 {
      i := 0;
    } else {
      i := EarliestIsReady(w, k - 1);
      if w[k].order < w[i].order {
        i := k;
      }
    }
  }

  /**
   A queue with waiting entries always delivers one: the scan never falls through. What it delivers
   is the earliest entry of its device, and every entry of a higher priority that is left behind
   is held back by an earlier entry of its own device.
   */
  lemma NextDelivers(q: Queue)
    requires Valid(q) && q.waiting != []
    ensures Next(q).1.Delivered?
    ensures var d := Next(q).1.entry;
            && d in q.waiting
            && (forall o :: o in q.waiting && o.event.deviceId == d.event.deviceId ==> d.order <= o.order)
            && (forall o :: o in q.waiting && !AtLeast(d.event.priority, o.event.priority) ==>
                  exists x :: x in q.waiting && x.event.deviceId == o.event.deviceId && x.order < o.order)
  {
    var e := EarliestIsReady(q.waiting, |q.waiting| - 1);
    FirstReadyIsFirst(q.waiting, 0);
    assert !HasEarlier(q.waiting, q.waiting[e]) by {
      HasEarlierMeans(q.waiting, q.waiting[e]);
    }
    ReadyIsFirst(q.waiting, FirstReady(q.waiting, 0));
    var d := Next(q).1.entry;
    forall o | o in q.waiting && !AtLeast(d.event.priority, o.event.priority)
      ensures exists x :: x in q.waiting && x.event.deviceId == o.event.deviceId && x.order < o.order
    {
      HasEarlierMeans(q.waiting, o);
      var x :| x in q.waiting && Precedes(x, o);
    }
  }

  lemma ReadyIsFirst(w: seq<Entry>, i: nat)
    requires i < |w| && Sorted(w) && !HasEarlier(w, w[i])
    requires forall j :: 0 <= j < i ==> HasEarlier(w, w[j])
    ensures forall o :: o in w && o.event.deviceId == w[i].event.deviceId ==> w[i].order <= o.order
    ensures forall o :: o in w && Greater(o.event.priority, w[i].event.priority) ==> HasEarlier(w, o)
  {
    forall o | o in w
      ensures o.event.deviceId == w[i].event.deviceId ==> w[i].order <= o.order
      ensures Greater(o.event.priority, w[i].event.priority) ==> HasEarlier(w, o)
    {
      var k :| 0 <= k < |w| && w[k] == o;
      HasEarlierMeans(w, w[i]);
    }
  }
}
