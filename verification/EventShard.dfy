/**
 The running shard: four lists of heap-allocated entries, an index by coalesce key, a set of
 queued low-priority keys and a counter, all updated in place. Every method is proved to do what
 EventQueue says about the single list that these fields stand for.
 */
module EventShard {
  import opened EventQueue

  const PRIORITIES: seq<Priority> := [Critical, High, Normal, Low]

  class QueuedEvent {
    var event: Event
    const order: nat

    constructor (event: Event, order: nat)
      ensures this.event == event && this.order == order
    {
      this.event := event;
      this.order := order;
    }
  }

  /** Position of the list of priority p when the four lists are laid end to end. */
  ghost function Offset(queues: map<Priority, seq<QueuedEvent>>, p: Priority): nat
    requires queues.Keys == {Critical, High, Normal, Low}
  {
    (if p == Critical then 0 else |queues[Critical]|)
    + (if p == Critical || p == High then 0 else |queues[High]|)
    + (if p == Low then |queues[Normal]| else 0)
  }

  /** The lists laid end to end make up `flat`, each entry in the list of its own priority. */
  ghost predicate LaidOut(queues: map<Priority, seq<QueuedEvent>>, flat: seq<QueuedEvent>)
    reads flat
  {
    && queues.Keys == {Critical, High, Normal, Low}
    && |flat| == Offset(queues, Low) + |queues[Low]|
    && (forall p, i :: p in queues && 0 <= i < |queues[p]| ==>
          flat[Offset(queues, p) + i] == queues[p][i] && queues[p][i].event.priority == p)
  }

  /** Every position of `flat` lies in one of the lists. */
  lemma Locate(queues: map<Priority, seq<QueuedEvent>>, flat: seq<QueuedEvent>, n: nat) returns (p: Priority, i: nat)
    requires LaidOut(queues, flat) && n < |flat|
    ensures p in queues && i < |queues[p]| && n == Offset(queues, p) + i && queues[p][i] == flat[n]
  {
    p := if n < Offset(queues, High) then Critical
         else if n < Offset(queues, Normal) then High
         else if n < Offset(queues, Low) then Normal else Low;
    i := n - Offset(queues, p);
    assert queues[p][i] == flat[Offset(queues, p) + i];
  }

  ghost predicate FourLists(queues: map<Priority, seq<QueuedEvent>>, total: nat) {
    queues.Keys == {Critical, High, Normal, Low} && total == Offset(queues, Low) + |queues[Low]|
  }

  /** Cutting one entry moves the entries behind it, in its own list and in the later ones. */
  lemma CutMoves(queues: map<Priority, seq<QueuedEvent>>, total: nat, p: Priority, i: nat,
                 queues': map<Priority, seq<QueuedEvent>>, r: Priority, j: nat, k: nat)
    requires FourLists(queues, total) && p in queues && i < |queues[p]|
    requires queues' == queues[p := queues[p][..i] + queues[p][i + 1..]] && r in queues' && j < |queues'[r]|
    requires k == if r == p && j >= i then j + 1 else j
    ensures FourLists(queues', total - 1)
    ensures k < |queues[r]| && queues'[r][j] == queues[r][k]
    ensures var at, n := Offset(queues, p) + i, Offset(queues', r) + j;
            at < total && n < total - 1 && Offset(queues, r) + k == if n < at then n else n + 1
  {
    if r == p {
      CutAt(queues[p], i, j);
    }
  }

  /** What the entries of the shortened lists and of the shortened whole have in common. */
  lemma CutEntry(queues: map<Priority, seq<QueuedEvent>>, flat: seq<QueuedEvent>, p: Priority, i: nat,
                 queues': map<Priority, seq<QueuedEvent>>, r: Priority, j: nat, k: nat)
    requires FourLists(queues, |flat|) && p in queues && i < |queues[p]|
    requires queues' == queues[p := queues[p][..i] + queues[p][i + 1..]] && r in queues' && j < |queues'[r]|
    requires k == (if r == p && j >= i then j + 1 else j) && k < |queues[r]| && Offset(queues, r) + k < |flat|
    requires flat[Offset(queues, r) + k] == queues[r][k]
    ensures FourLists(queues', |flat| - 1) && queues'[r][j] == queues[r][k]
    ensures var at := Offset(queues, p) + i;
            at < |flat| && Offset(queues', r) + j < |flat| - 1 && (flat[..at] + flat[at + 1..])[Offset(queues', r) + j] == queues'[r][j]
  {
    CutMoves(queues, |flat|, p, i, queues', r, j, k);
    CutAt(flat, Offset(queues, p) + i, Offset(queues', r) + j);
  }

  lemma LaidOutWithout(queues: map<Priority, seq<QueuedEvent>>, flat: seq<QueuedEvent>, p: Priority, i: nat)
    requires LaidOut(queues, flat) && p in queues && i < |queues[p]|
    ensures var at := Offset(queues, p) + i;
            && at < |flat| && flat[at] == queues[p][i]
            && LaidOut(queues[p := queues[p][..i] + queues[p][i + 1..]], flat[..at] + flat[at + 1..])
  {
    var at := Offset(queues, p) + i;
    assert flat[at] == queues[p][i];
    KeptLists(queues, |flat|, p, i, queues[p := queues[p][..i] + queues[p][i + 1..]]);
    AllKept(queues, flat, p, i, queues[p := queues[p][..i] + queues[p][i + 1..]], flat[..at] + flat[at + 1..]);
  }

  lemma AllKept(queues: map<Priority, seq<QueuedEvent>>, flat: seq<QueuedEvent>, p: Priority, i: nat,
                queues': map<Priority, seq<QueuedEvent>>, flat': seq<QueuedEvent>)
    requires LaidOut(queues, flat) && p in queues && i < |queues[p]| && FourLists(queues', |flat| - 1)
    requires queues' == queues[p := queues[p][..i] + queues[p][i + 1..]]
    requires var at := Offset(queues, p) + i;
             at < |flat| && flat' == flat[..at] + flat[at + 1..]
    ensures LaidOut(queues', flat')
  {
    forall r, j | r in queues' && 0 <= j < |queues'[r]|
      ensures flat'[Offset(queues', r) + j] == queues'[r][j] && queues'[r][j].event.priority == r
    {
      KeptEntry(queues, flat, p, i, queues', r, j);
    }
  }

  lemma KeptLists(queues: map<Priority, seq<QueuedEvent>>, total: nat, p: Priority, i: nat, queues': map<Priority, seq<QueuedEvent>>)
    requires FourLists(queues, total) && p in queues && i < |queues[p]|
    requires queues' == queues[p := queues[p][..i] + queues[p][i + 1..]]
    ensures FourLists(queues', total - 1)
  {
  }

  lemma KeptEntry(queues: map<Priority, seq<QueuedEvent>>, flat: seq<QueuedEvent>, p: Priority, i: nat,
                  queues': map<Priority, seq<QueuedEvent>>, r: Priority, j: nat)
    requires LaidOut(queues, flat) && p in queues && i < |queues[p]|
    requires queues' == queues[p := queues[p][..i] + queues[p][i + 1..]] && r in queues' && j < |queues'[r]|
    ensures var at := Offset(queues, p) + i;
            && at < |flat| && Offset(queues', r) + j < |flat| - 1
            && (flat[..at] + flat[at + 1..])[Offset(queues', r) + j] == queues'[r][j] && queues'[r][j].event.priority == r
  {
    var k := if r == p && j >= i then j + 1 else j;
    assert flat[Offset(queues, r) + k] == queues[r][k] && queues[r][k].event.priority == r;
    CutEntry(queues, flat, p, i, queues', r, j, k);
  }

  lemma CutAt(s: seq<QueuedEvent>, at: nat, n: nat)
    requires at < |s| && n < |s| - 1
    ensures (s[..at] + s[at + 1..])[n] == s[if n < at then n else n + 1]
  {
  }

  /** Appending one entry to a list moves the entries of the later lists. */
  lemma AppendMoves(queues: map<Priority, seq<QueuedEvent>>, total: nat, p: Priority, x: QueuedEvent,
                    queues': map<Priority, seq<QueuedEvent>>, r: Priority, j: nat)
    requires FourLists(queues, total) && p in queues
    requires queues' == queues[p := queues[p] + [x]] && r in queues' && j < |queues'[r]|
    ensures FourLists(queues', total + 1)
    ensures var at := Offset(queues, p) + |queues[p]|;
            && at <= total && Offset(queues', r) + j <= total
            && if r == p && j == |queues[p]| then Offset(queues', r) + j == at && queues'[r][j] == x
               else j < |queues[r]| && queues'[r][j] == queues[r][j]
                    && Offset(queues', r) + j == (if Offset(queues, r) + j < at then Offset(queues, r) + j else Offset(queues, r) + j + 1)
  {
  }

  lemma InsertedAt(s: seq<QueuedEvent>, at: nat, x: QueuedEvent, n: nat)
    requires at <= |s| && n <= |s|
    ensures (s[..at] + [x] + s[at..])[n] == if n < at then s[n] else if n == at then x else s[n - 1]
  {
  }

  lemma LaidOutAppend(queues: map<Priority, seq<QueuedEvent>>, flat: seq<QueuedEvent>, x: QueuedEvent)
    requires LaidOut(queues, flat) && x.event.priority in queues
    ensures var p := x.event.priority;
            var at := Offset(queues, p) + |queues[p]|;
            && at <= |flat|
            && LaidOut(queues[p := queues[p] + [x]], flat[..at] + [x] + flat[at..])
  {
    var p := x.event.priority;
    var at := Offset(queues, p) + |queues[p]|;
    AppendedLists(queues, |flat|, p, x, queues[p := queues[p] + [x]]);
    AllStillThere(queues, flat, x, queues[p := queues[p] + [x]], flat[..at] + [x] + flat[at..]);
  }

  lemma AllStillThere(queues: map<Priority, seq<QueuedEvent>>, flat: seq<QueuedEvent>, x: QueuedEvent,
                      queues': map<Priority, seq<QueuedEvent>>, flat': seq<QueuedEvent>)
    requires LaidOut(queues, flat) && x.event.priority in queues
    requires queues' == queues[x.event.priority := queues[x.event.priority] + [x]] && FourLists(queues', |flat| + 1)
    requires var at := Offset(queues, x.event.priority) + |queues[x.event.priority]|;
             at <= |flat| && flat' == flat[..at] + [x] + flat[at..]
    ensures LaidOut(queues', flat')
  {
    forall r, j | r in queues' && 0 <= j < |queues'[r]|
      ensures flat'[Offset(queues', r) + j] == queues'[r][j] && queues'[r][j].event.priority == r
    {
      StillThere(queues, flat, x, queues', r, j);
    }
  }

  lemma AppendedLists(queues: map<Priority, seq<QueuedEvent>>, total: nat, p: Priority, x: QueuedEvent,
                      queues': map<Priority, seq<QueuedEvent>>)
    requires FourLists(queues, total) && p in queues && queues' == queues[p := queues[p] + [x]]
    ensures FourLists(queues', total + 1) && Offset(queues, p) + |queues[p]| <= total
  {
  }

  lemma StillThere(queues: map<Priority, seq<QueuedEvent>>, flat: seq<QueuedEvent>, x: QueuedEvent,
                   queues': map<Priority, seq<QueuedEvent>>, r: Priority, j: nat)
    requires LaidOut(queues, flat) && x.event.priority in queues
    requires queues' == queues[x.event.priority := queues[x.event.priority] + [x]] && r in queues' && j < |queues'[r]|
    ensures var at := Offset(queues, x.event.priority) + |queues[x.event.priority]|;
            && at <= |flat| && Offset(queues', r) + j <= |flat|
            && (flat[..at] + [x] + flat[at..])[Offset(queues', r) + j] == queues'[r][j] && queues'[r][j].event.priority == r
  {
    if j < |queues[r]| {
      OldEntry(queues, flat, r, j);
    }
    AppendedEntry(queues, flat, x.event.priority, x, queues', r, j);
  }

  lemma OldEntry(queues: map<Priority, seq<QueuedEvent>>, flat: seq<QueuedEvent>, r: Priority, j: nat)
    requires LaidOut(queues, flat) && r in queues && j < |queues[r]|
    ensures FourLists(queues, |flat|) && Offset(queues, r) + j < |flat|
    ensures flat[Offset(queues, r) + j] == queues[r][j] && queues[r][j].event.priority == r
  {
  }

  lemma AppendedEntry(queues: map<Priority, seq<QueuedEvent>>, flat: seq<QueuedEvent>, p: Priority, x: QueuedEvent,
                      queues': map<Priority, seq<QueuedEvent>>, r: Priority, j: nat)
    requires FourLists(queues, |flat|) && p in queues
    requires queues' == queues[p := queues[p] + [x]] && r in queues' && j < |queues'[r]|
    requires j < |queues[r]| ==> Offset(queues, r) + j < |flat| && flat[Offset(queues, r) + j] == queues[r][j]
    ensures FourLists(queues', |flat| + 1) && (j < |queues[r]| ==> queues'[r][j] == queues[r][j])
    ensures j >= |queues[r]| ==> r == p && queues'[r][j] == x
    ensures var at := Offset(queues, p) + |queues[p]|;
            at <= |flat| && Offset(queues', r) + j <= |flat| && (flat[..at] + [x] + flat[at..])[Offset(queues', r) + j] == queues'[r][j]
  {
    AppendMoves(queues, |flat|, p, x, queues', r, j);
    InsertedAt(flat, Offset(queues, p) + |queues[p]|, x, Offset(queues', r) + j);
  }

  /** The end of the list of priority p separates the higher or equal priorities from the lower ones. */
  lemma RanksAround(queues: map<Priority, seq<QueuedEvent>>, flat: seq<QueuedEvent>, p: Priority)
    requires LaidOut(queues, flat) && p in queues
    ensures var at := Offset(queues, p) + |queues[p]|;
            && at <= |flat|
            && (forall n :: 0 <= n < at ==> Rank(flat[n].event.priority) >= Rank(p))
            && (at < |flat| ==> Rank(flat[at].event.priority) < Rank(p))
  {
    var at := Offset(queues, p) + |queues[p]|;
    forall n | 0 <= n < at
      ensures Rank(flat[n].event.priority) >= Rank(p)
    {
      var r, i := Locate(queues, flat, n);
    }
    if at < |flat| {
      var r, i := Locate(queues, flat, at);
    }
  }

  class Shard {
    var closed: bool
    const capacity: int
    var pending: int
    var queues: map<Priority, seq<QueuedEvent>>
    var coalesce: map<string, QueuedEvent>
    var dedupe: set<string>
    var nextOrder: nat

    ghost var flat: seq<QueuedEvent>  // the four lists laid end to end
    ghost var waiting: seq<Entry>     // what the entries hold

    ghost predicate Shaped()
      reads this, flat
    {
      LaidOut(queues, flat)
    }

    ghost predicate Linked()
      reads this, flat
    {
      |waiting| == |flat| && forall i :: 0 <= i < |flat| ==> waiting[i] == Entry(flat[i].event, flat[i].order)
    }

    /** The counter and the key set agree with the entries. */
    ghost predicate Counted()
      reads this
    {
      pending == |waiting| && dedupe == DedupKeys(waiting)
    }

    /** The index maps each non-empty coalesce key to the entry that carries it. */
    ghost predicate Indexed()
      reads this, flat
    {
      IndexedAs(coalesce, flat)
    }

    static ghost predicate IndexedAs(index: map<string, QueuedEvent>, flat: seq<QueuedEvent>)
      reads flat
    {
      && (forall k :: k in index ==> k != "" && index[k] in flat && index[k].event.coalesceKey == k)
      && (forall x :: x in flat && x.event.coalesceKey != "" ==>
            x.event.coalesceKey in index && index[x.event.coalesceKey] == x)
    }

    static lemma IndexedAppend(index: map<string, QueuedEvent>, flat: seq<QueuedEvent>, at: nat, x: QueuedEvent)
      requires IndexedAs(index, flat) && at <= |flat| && x.event.coalesceKey !in index
      ensures var k := x.event.coalesceKey;
              IndexedAs(if k != "" then index[k := x] else index, flat[..at] + [x] + flat[at..])
    {
      InsertedMembers(flat, at, x);
    }

    static lemma InsertedMembers(s: seq<QueuedEvent>, at: nat, x: QueuedEvent)
      requires at <= |s|
      ensures forall y :: y in s[..at] + [x] + s[at..] <==> y in s || y == x
    {
      assert s == s[..at] + s[at..];
    }

    ghost function Abstract(): Queue
      reads this
    {
      Queue(closed, capacity, nextOrder, waiting)
    }

    ghost predicate Valid()
      reads this, flat
    {
      Shaped() && Linked() && Counted() && Indexed() && EventQueue.Valid(Abstract())
    }

    /** A shard none of whose objects changed is in the state it was in. */
    twostate lemma StaysValid()
      requires old(Valid()) && unchanged(this) && forall x :: x in flat ==> unchanged(x)
      ensures Valid() && Abstract() == old(Abstract())
    {
      forall n | 0 <= n < |flat|
        ensures flat[n].event == old(flat[n].event)
      {
        assert flat[n] in flat;
      }
      forall p, i | p in queues && 0 <= i < |queues[p]|
        ensures queues[p][i].event.priority == p
      {
        assert queues[p][i] == flat[Offset(queues, p) + i];
      }
    }

    constructor (capacity: nat)
      ensures Valid() && Abstract() == Empty(capacity)
    {
      this.capacity := capacity;
      closed, pending, nextOrder := false, 0, 0;
      queues := map[Critical := [], High := [], Normal := [], Low := []];
      coalesce, dedupe := map[], {};
      flat, waiting := [], [];
    }

    /** Whether an earlier entry of the candidate's device is still queued, in any of the lists. */
    method HasEarlierForDevice(candidate: QueuedEvent) returns (earlier: bool)
      requires Shaped() && Linked()
      ensures earlier == HasEarlier(waiting, Entry(candidate.event, candidate.order))
    {
      for p := 0 to 4
        invariant forall r, i :: 0 <= r < p && 0 <= i < |queues[PRIORITIES[r]]| ==>
                    !Ahead(queues[PRIORITIES[r]][i], candidate)
      {
        var items := queues[PRIORITIES[p]];
        for index := 0 to |items|
          invariant forall i :: 0 <= i < index ==> !Ahead(items[i], candidate)
        {
          var other := items[index];
          if other != candidate && other.event.deviceId == candidate.event.deviceId && other.order < candidate.order {
            assert flat[Offset(queues, PRIORITIES[p]) + index] == queues[PRIORITIES[p]][index];
            ghost var n := Offset(queues, PRIORITIES[p]) + index;
            assert waiting[n] in waiting && waiting[n] == Entry(other.event, other.order);
            HasEarlierMeans(waiting, Entry(candidate.event, candidate.order));
            return true;
          }
        }
      }
      assert PRIORITIES[0] == Critical && PRIORITIES[1] == High && PRIORITIES[2] == Normal && PRIORITIES[3] == Low;
      forall n | 0 <= n < |waiting|
        ensures !Precedes(waiting[n], Entry(candidate.event, candidate.order))
      {
        var p, i := Locate(queues, flat, n);
        assert !Ahead(queues[p][i], candidate);
      }
      HasEarlierMeans(waiting, Entry(candidate.event, candidate.order));
      return false;
    }

    ghost predicate Ahead(x: QueuedEvent, candidate: QueuedEvent)
      reads x, candidate
    {
      x.event.deviceId == candidate.event.deviceId && x.order < candidate.order
    }

    ghost method Cut(at: nat)
      requires Linked() && at < |flat|
      modifies this`flat, this`waiting
      ensures Linked() && flat == old(flat)[..at] + old(flat)[at + 1..] && waiting == Without(old(waiting), at)
    {
      flat, waiting := flat[..at] + flat[at + 1..], Without(waiting, at);
    }

    ghost method Insertion(at: nat, x: QueuedEvent)
      requires Linked() && at <= |flat|
      requires Insert(waiting, Entry(x.event, x.order)) == waiting[..at] + [Entry(x.event, x.order)] + waiting[at..]
      modifies this`flat, this`waiting
      ensures Linked() && flat == old(flat)[..at] + [x] + old(flat)[at..]
      ensures waiting == Insert(old(waiting), Entry(x.event, x.order))
    {
      flat, waiting := flat[..at] + [x] + flat[at..], Insert(waiting, Entry(x.event, x.order));
    }

    /** Close the gap that the entry at `index` leaves in the list of priority p. */
    method RemoveAtLocked(p: Priority, index: nat)
      requires Shaped() && Linked() && p in queues && index < |queues[p]|
      modifies this`queues, this`flat, this`waiting
      ensures Shaped() && Linked()
      ensures var at := Offset(old(queues), p) + index;
              && at < |old(flat)| && old(flat)[at] == old(queues)[p][index]
              && flat == old(flat)[..at] + old(flat)[at + 1..]
              && waiting == Without(old(waiting), at)
    {
      LaidOutWithout(queues, flat, p, index);
      ghost var at := Offset(queues, p) + index;
      queues := queues[p := queues[p][..index] + queues[p][index + 1..]];
      Cut(at);
      assert LaidOut(queues, flat);
    }

    /** Take an entry out of the list it is in. */
    method RemoveLocked(target: QueuedEvent) returns (ghost at: nat)
      requires Shaped() && Linked() && target in flat
      modifies this`queues, this`flat, this`waiting
      ensures Shaped() && Linked()
      ensures at < |old(flat)| && old(flat)[at] == target
      ensures flat == old(flat)[..at] + old(flat)[at + 1..] && waiting == Without(old(waiting), at)
    {
      InItsList(target);
      var items := queues[target.event.priority];
      for index := 0 to |items|
        invariant target !in items[..index]
      {
        if items[index] == target {
          at := Offset(queues, target.event.priority) + index;
          RemoveAtLocked(target.event.priority, index);
          return;
        }
      }
      assert false;
    }

    lemma InItsList(x: QueuedEvent)
      requires Shaped() && x in flat
      ensures x.event.priority in queues && x in queues[x.event.priority]
    {
      var n :| 0 <= n < |flat| && flat[n] == x;
      var p, i := Locate(queues, flat, n);
    }

    /** Put an entry at the end of the list of its priority: behind all of the same or a higher one. */
    method Place(x: QueuedEvent) returns (ghost at: nat)
      requires Shaped() && Linked() && x.event.priority in queues
      modifies this`queues, this`flat, this`waiting
      ensures Shaped() && Linked()
      ensures at <= |old(flat)| && flat == old(flat)[..at] + [x] + old(flat)[at..]
      ensures waiting == Insert(old(waiting), Entry(x.event, x.order))
    {
      at := PlacePoint(x);
      queues := queues[x.event.priority := queues[x.event.priority] + [x]];
      Insertion(at, x);
      assert LaidOut(queues, flat);
    }

    lemma InsertionPoint(x: QueuedEvent, at: nat)
      requires Shaped() && Linked() && x.event.priority in queues
      requires at == Offset(queues, x.event.priority) + |queues[x.event.priority]|
      ensures at <= |flat|
      ensures var e := Entry(x.event, x.order); Insert(waiting, e) == waiting[..at] + [e] + waiting[at..]
    {
      RanksAround(queues, flat, x.event.priority);
      assert forall i :: 0 <= i < |flat| ==> waiting[i].event.priority == flat[i].event.priority;
      InsertAt(waiting, Entry(x.event, x.order), at);
    }

    lemma PlacePoint(x: QueuedEvent) returns (at: nat)
      requires Shaped() && Linked() && x.event.priority in queues
      ensures var p, e := x.event.priority, Entry(x.event, x.order);
              && at <= |flat|
              && LaidOut(queues[p := queues[p] + [x]], flat[..at] + [x] + flat[at..])
              && Insert(waiting, e) == waiting[..at] + [e] + waiting[at..]
    {
      at := Offset(queues, x.event.priority) + |queues[x.event.priority]|;
      InsertionPoint(x, at);
      LaidOutAppend(queues, flat, x);
    }

    /** Queue a new entry. */
    method Admit(event: Event) returns (queued: QueuedEvent, ghost at: nat)
      requires Shaped() && Linked() && event.priority in queues
      modifies this`nextOrder, this`pending, this`queues, this`flat, this`waiting
      ensures Shaped() && Linked() && fresh(queued) && queued.event == event && queued.order == nextOrder
      ensures nextOrder == old(nextOrder) + 1 && pending == old(pending) + 1
      ensures waiting == Insert(old(waiting), Entry(event, nextOrder))
      ensures at <= |old(flat)| && flat == old(flat)[..at] + [queued] + old(flat)[at..]
    {
      nextOrder := nextOrder + 1;
      queued := new QueuedEvent(event, nextOrder);
      at := Place(queued);
      pending := pending + 1;
    }

    /** Enter an entry that was just queued in the index and in the key set. */
    method Register(queued: QueuedEvent, ghost before: seq<QueuedEvent>, ghost at: nat, ghost w: seq<Entry>)
      requires at <= |before| && flat == before[..at] + [queued] + before[at..]
      requires IndexedAs(coalesce, before) && queued.event.coalesceKey !in coalesce
      requires waiting == Insert(w, Entry(queued.event, queued.order)) && dedupe == DedupKeys(w) && pending == |w| + 1
      modifies this`coalesce, this`dedupe
      ensures Counted() && Indexed()
    {
      IndexedAppend(coalesce, before, at, queued);
      DedupAfterInsert(w, Entry(queued.event, queued.order));
      if queued.event.coalesceKey != "" {
        coalesce := coalesce[queued.event.coalesceKey := queued];
      }
      if queued.event.priority == Low && queued.event.dedupKey != "" {
        dedupe := dedupe + {queued.event.dedupKey};
      }
    }

    /** Move a queued entry to the end of a higher list, with its new content. */
    method Upgrade(current: QueuedEvent, event: Event) returns (ghost at: nat)
      requires Shaped() && Linked() && DistinctOrders(waiting) && current in flat && event.priority in queues
      modifies this`queues, this`flat, this`waiting, current`event
      ensures Shaped() && Linked() && current.event == event
      ensures at < |old(flat)| && old(flat)[at] == current
      ensures waiting == Insert(Without(old(waiting), at), Entry(event, current.order))
      ensures forall x :: x in flat <==> x in old(flat)
    {
      at := RemoveLocked(current);
      CutMembers(old(flat), old(waiting), at);
      current.event := event;
      ghost var n := Place(current);
      InsertedMembers(old(flat)[..at] + old(flat)[at + 1..], n, current);
    }

    /** Removing position `at` removes exactly that object: no object is queued twice. */
    static lemma CutMembers(s: seq<QueuedEvent>, w: seq<Entry>, at: nat)
      requires |w| == |s| && at < |s| && DistinctOrders(w) && forall i :: 0 <= i < |s| ==> w[i].order == s[i].order
      ensures forall y :: y in s[..at] + s[at + 1..] <==> y in s && y != s[at]
    {
      forall y | y in s && y != s[at]
        ensures y in s[..at] + s[at + 1..]
      {
        var k :| 0 <= k < |s| && s[k] == y;
        assert if k < at then s[..at][k] == y else s[at + 1..][k - at - 1] == y;
      }
    }

    /** Replace the content of a queued entry in place; its priority stays. */
    method Overwrite(current: QueuedEvent, event: Event) returns (ghost at: nat)
      requires Shaped() && Linked() && DistinctOrders(waiting) && current in flat
      requires event.priority == current.event.priority
      modifies this`waiting, current`event
      ensures Shaped() && Linked() && current.event == event
      ensures at < |flat| && flat[at] == current
      ensures waiting == old(waiting)[at := Entry(event, current.order)]
    {
      at :| 0 <= at < |flat| && flat[at] == current;
      current.event := event;
      waiting := waiting[at := Entry(event, current.order)];
    }

    /** Give a queued entry the newest content; its priority only ever rises. */
    method Rewrite(current: QueuedEvent, event: Event) returns (ghost at: nat)
      requires Shaped() && Linked() && DistinctOrders(waiting) && current in flat && event.priority in queues
      modifies this`queues, this`flat, this`waiting, current`event
      ensures Shaped() && Linked()
      ensures at < |old(flat)| && old(flat)[at] == current && waiting == MergeInto(old(waiting), at, event)
      ensures current.event == event.(priority := if Greater(event.priority, old(current.event.priority))
                                                  then event.priority else old(current.event.priority))
      ensures forall x :: x in flat <==> x in old(flat)
    {
      if Greater(event.priority, current.event.priority) {
        at := Upgrade(current, event);
      } else {
        at := Overwrite(current, event.(priority := current.event.priority));
      }
    }

    /** Update the key set after a rewrite. */
    method Rededupe(previousPriority: Priority, previousKey: string, current: Event, ghost w: seq<Entry>, ghost at: nat, ghost event: Event)
      requires at < |w| && DistinctOrders(w) && DistinctDedup(w) && waiting == MergeInto(w, at, event)
      requires w[at].event.priority == previousPriority && w[at].event.dedupKey == previousKey
      requires current == event.(priority := if Greater(event.priority, previousPriority) then event.priority else previousPriority)
      requires dedupe == DedupKeys(w) && pending == |w|
      modifies this`dedupe
      ensures Counted()
    {
      DedupAfterMerge(w, at, event);
      if previousPriority == Low && previousKey != "" {
        dedupe := dedupe - {previousKey};
      }
      if current.priority == Low && current.dedupKey != "" {
        dedupe := dedupe + {current.dedupKey};
      }
    }

    /** Fold a publication into the entry that is already queued under its key. */
    method Merge(current: QueuedEvent, event: Event) returns (ghost at: nat)
      requires Shaped() && Linked() && Counted() && Indexed() && DistinctOrders(waiting) && DistinctDedup(waiting)
      requires current in flat && event.priority in queues && event.coalesceKey == current.event.coalesceKey
      modifies this`queues, this`flat, this`waiting, this`dedupe, current`event
      ensures Shaped() && Linked() && Counted() && Indexed()
      ensures at < |old(flat)| && old(flat)[at] == current && waiting == MergeInto(old(waiting), at, event)
      ensures forall x :: x in flat ==> x in old(flat)
    {
      var previousPriority, previousKey := current.event.priority, current.event.dedupKey;
      at := Rewrite(current, event);
      IndexKept(current);
      Rededupe(previousPriority, previousKey, current.event, old(waiting), at, event);
    }

    /** Rewriting an entry under its own key leaves the index right. */
    twostate lemma IndexKept(current: QueuedEvent)
      requires old(Indexed()) && coalesce == old(coalesce)
      requires forall x :: x in flat <==> x in old(flat)
      requires forall x :: x in old(flat) && x != current ==> unchanged(x)
      requires current.event.coalesceKey == old(current.event.coalesceKey)
      ensures Indexed()
    {
    }

    /** Queue a new entry and index it. */
    method Append(event: Event)
      requires Shaped() && Linked() && Counted() && Indexed()
      requires event.priority in queues && event.coalesceKey !in coalesce
      modifies this
      ensures Shaped() && Linked() && Counted() && Indexed()
      ensures closed == old(closed) && nextOrder == old(nextOrder) + 1
      ensures waiting == Insert(old(waiting), Entry(event, nextOrder))
      ensures forall x :: x in flat ==> x in old(flat) || fresh(x)
    {
      var queued, at := Admit(event);
      Register(queued, old(flat), at, old(waiting));
    }

    /** The same key is queued once, so the index and a scan find the same entry. */
    static lemma KeyIndexIs(w: seq<Entry>, at: nat, key: string)
      requires at < |w| && DistinctKeys(w) && key != "" && w[at].event.coalesceKey == key
      ensures KeyWaiting(w, key) && KeyIndex(w, key) == at
    {
    }

    method MergeQueued(event: Event)
      requires Shaped() && Linked() && Counted() && Indexed()
      requires DistinctOrders(waiting) && DistinctKeys(waiting) && DistinctDedup(waiting)
      requires event.priority in queues && event.coalesceKey in coalesce && KeyWaiting(waiting, event.coalesceKey)
      modifies this`queues, this`flat, this`waiting, this`dedupe, flat
      ensures Shaped() && Linked() && Counted() && Indexed()
      ensures waiting == MergeInto(old(waiting), KeyIndex(old(waiting), event.coalesceKey), event)
      ensures forall x :: x in flat ==> x in old(flat)
    {
      ghost var at := Merge(coalesce[event.coalesceKey], event);
      KeyIndexIs(old(waiting), at, event.coalesceKey);
    }

    /** The specification, with the searches replaced by the keys they look for. */
    static lemma EnqueueDecision(q: Queue, raw: Event)
      requires !q.closed
      ensures var e := raw.(priority := Normalize(raw.priority));
              EventQueue.Enqueue(q, raw) ==
                if Deduplicates(e) && e.dedupKey in DedupKeys(q.waiting) then (q, Duplicate)
                else if e.coalesceKey != "" && KeyWaiting(q.waiting, e.coalesceKey) then
                  (q.(waiting := MergeInto(q.waiting, KeyIndex(q.waiting, e.coalesceKey), e)), Merged)
                else if |q.waiting| >= q.capacity then (q, Full)
                else (q.(nextOrder := q.nextOrder + 1, waiting := Insert(q.waiting, Entry(e, q.nextOrder + 1))), Accepted)
    {
      DedupWaiting(q.waiting, raw.dedupKey);
    }

    method EnqueueLocked(raw: Event) returns (result: EnqueueResult)
      requires Shaped() && Linked() && Counted() && Indexed()
      requires DistinctOrders(waiting) && DistinctKeys(waiting) && DistinctDedup(waiting)
      modifies this, flat
      ensures Shaped() && Linked() && Counted() && Indexed()
      ensures (Abstract(), result) == EventQueue.Enqueue(old(Abstract()), raw)
      ensures forall x :: x in flat ==> x in old(flat) || fresh(x)
    {
      var event := raw.(priority := Normalize(raw.priority));
      if closed {
        return Closed;
      }
      EnqueueDecision(Abstract(), raw);
      if event.priority == Low && event.dedupKey != "" && event.dedupKey in dedupe {
        return Duplicate;
      }
      KeyIsIndexed(event.coalesceKey);
      if event.coalesceKey != "" && event.coalesceKey in coalesce {
        MergeQueued(event);
        assert Abstract() == old(Abstract()).(waiting := MergeInto(old(waiting), KeyIndex(old(waiting), event.coalesceKey), event));
        return Merged;
      }
      if pending >= capacity {
        return Full;
      }
      Append(event);
      assert Abstract() == old(Abstract()).(nextOrder := nextOrder, waiting := Insert(old(waiting), Entry(event, nextOrder)));
      return Accepted;
    }

    /**
     Publish an event: refuse it when closed, drop a waiting low-priority duplicate, merge it into
     the entry queued under its key, or queue it if there is room.
     */
    method Enqueue(event: Event) returns (result: EnqueueResult)
      requires Valid()
      modifies this, flat
      ensures Valid()
      ensures (Abstract(), result) == EventQueue.Enqueue(old(Abstract()), event)
      ensures forall x :: x in flat ==> x in old(flat) || fresh(x)
    {
      EnqueueKeepsValid(Abstract(), event);
      result := EnqueueLocked(event);
    }

    lemma KeyIsIndexed(key: string)
      requires Linked() && Indexed()
      ensures key != "" ==> (key in coalesce <==> KeyWaiting(waiting, key))
      ensures "" !in coalesce
    {
      if key in coalesce {
        var i :| 0 <= i < |flat| && flat[i] == coalesce[key];
        assert waiting[i].event.coalesceKey == key;
      }
      if KeyWaiting(waiting, key) {
        var i := KeyIndex(waiting, key);
        assert flat[i].event.coalesceKey == key;
      }
    }

    /** Forget a delivered entry's keys. */
    method Unregister(queued: QueuedEvent, ghost before: seq<QueuedEvent>, ghost w: seq<Entry>, ghost at: nat)
      requires at < |w| == |before| && DistinctOrders(w) && DistinctDedup(w)
      requires forall i :: 0 <= i < |w| ==> w[i].order == before[i].order
      requires before[at] == queued && w[at] == Entry(queued.event, queued.order)
      requires flat == before[..at] + before[at + 1..] && waiting == Without(w, at)
      requires IndexedAs(coalesce, before) && dedupe == DedupKeys(w) && pending == |w|
      modifies this`pending, this`coalesce, this`dedupe
      ensures Counted() && Indexed()
    {
      CutMembers(before, w, at);
      DedupAfterWithout(w, at);
      pending := pending - 1;
      if queued.event.coalesceKey != "" && queued.event.coalesceKey in coalesce && coalesce[queued.event.coalesceKey] == queued {
        coalesce := coalesce - {queued.event.coalesceKey};
      }
      if queued.event.priority == Low && queued.event.dedupKey != "" {
        dedupe := dedupe - {queued.event.dedupKey};
      }
    }

    /** Hand out the entry at a position of one list. */
    method Take(p: Priority, index: nat) returns (queued: QueuedEvent)
      requires Shaped() && Linked() && Counted() && Indexed() && DistinctOrders(waiting) && DistinctDedup(waiting)
      requires p in queues && index < |queues[p]|
      modifies this`queues, this`flat, this`waiting, this`pending, this`coalesce, this`dedupe
      ensures Shaped() && Linked() && Counted() && Indexed()
      ensures var at := Offset(old(queues), p) + index;
              && at < |old(waiting)| && waiting == Without(old(waiting), at)
              && old(waiting)[at] == Entry(queued.event, queued.order)
      ensures forall x :: x in flat ==> x in old(flat)
    {
      queued := queues[p][index];
      RemoveAtLocked(p, index);
      Unregister(queued, old(flat), old(waiting), Offset(old(queues), p) + index);
    }

    ghost predicate Held(n: nat)
      reads this`waiting
    {
      n < |waiting| && HasEarlier(waiting, waiting[n])
    }

    /** First entry of one list that its own device does not hold back. */
    method ScanList(items: seq<QueuedEvent>, ghost start: nat) returns (index: nat)
      requires Shaped() && Linked() && start + |items| <= |flat|
      requires forall i :: 0 <= i < |items| ==> flat[start + i] == items[i]
      ensures index <= |items| && forall n :: start <= n < start + index ==> Held(n)
      ensures index < |items| ==> !Held(start + index)
    {
      for i := 0 to |items|
        invariant forall n :: start <= n < start + i ==> Held(n)
      {
        assert flat[start + i] == items[i];
        var earlier := HasEarlierForDevice(items[i]);
        if !earlier {
          return i;
        }
      }
      return |items|;
    }

    /** The scan over the four lists finds the first ready entry; it never falls through. */
    method FindReady(ghost ready: nat) returns (p: Priority, index: nat)
      requires Shaped() && Linked() && ready < |waiting| && !Held(ready) && forall n :: 0 <= n < ready ==> Held(n)
      ensures p in queues && index < |queues[p]| && Offset(queues, p) + index == ready
    {
      ghost var start := 0;
      for i := 0 to 4
        invariant start == StartOf(i) <= ready
      {
        p := PRIORITIES[i];
        ListAt(i);
        index := ScanList(queues[p], start);
        assert !Held(ready);
        if index < |queues[p]| {
          return;
        }
        start := start + |queues[p]|;
      }
      assert false;
    }

    ghost function StartOf(i: nat): nat
      reads this, flat
      requires Shaped() && i <= 4
    {
      if i == 4 then |flat| else Offset(queues, PRIORITIES[i])
    }

    lemma ListAt(i: nat)
      requires Shaped() && i < 4
      ensures PRIORITIES[i] in queues && StartOf(i) == Offset(queues, PRIORITIES[i])
      ensures StartOf(i) + |queues[PRIORITIES[i]]| == StartOf(i + 1) <= |flat|
      ensures forall k :: 0 <= k < |queues[PRIORITIES[i]]| ==> flat[StartOf(i) + k] == queues[PRIORITIES[i]][k]
    {
    }

    /**
     Deliver the first entry, highest priority first, that no earlier entry of its own device holds
     back. Where next would wait, the result is Blocked.
     */
    method Next() returns (result: NextResult)
      requires Valid()
      modifies this
      ensures Valid()
      ensures (Abstract(), result) == EventQueue.Next(old(Abstract()))
      ensures forall x :: x in flat ==> x in old(flat)
    {
      NextKeepsValid(Abstract());
      if pending == 0 {
        return if closed then Drained else Blocked;
      }
      NextDelivers(Abstract());
      FirstReadyIsFirst(waiting, 0);
      var p, index := FindReady(FirstReady(waiting, 0));
      var queued := Take(p, index);
      return Delivered(Entry(queued.event, queued.order));
    }

    method Close()
      requires Valid()
      modifies this`closed
      ensures Valid() && Abstract() == EventQueue.Close(old(Abstract()))
    {
      closed := true;
    }
  }
}
