/**
 What the command tracker holds and how each operation changes it. Which of several equally old
 terminal commands is evicted is open, so operations that evict are relations.
 */
module CommandState {
  import opened Options
  import opened Values

  datatype Status = Queued | Sent | Accepted | Confirmed | Rejected | TimedOut | Superseded

  datatype Outcome = Pending | Succeeded | Failed | Unresolved

  datatype Kind = PropertyCommand | ActionCommand

  /** One property of one device. */
  datatype Slot = Slot(device: string, endpoint: string, capability: string, property: string)

  /** One keyed action request. */
  datatype Scope = Scope(device: string, endpoint: string, capability: string, action: string, key: string)

  datatype Command = Command(
    id: string, kind: Kind, device: string, endpoint: string, capability: string, property: string, action: string,
    expected: PropertyValue, parameters: map<string, PropertyValue>, key: string, correlation: string,
    coalesced: nat, status: Status, outcome: Outcome, error: string,
    createdAt: int, updatedAt: int, deadline: int)

  datatype State = State(commands: map<string, Command>, pending: map<Slot, string>,
                         idempotency: map<Scope, string>, maxItems: int)

  predicate Terminal(s: Status) {
    s == Confirmed || s == Rejected || s == TimedOut || s == Superseded
  }

  function OutcomeFor(s: Status): Outcome {
    match s
    case Confirmed => Succeeded
    case Rejected => Failed
    case TimedOut => Unresolved
    case Superseded => Unresolved
    case _ => Pending
  }

  /** The outcome tells whether a command has ended, and how. */
  lemma OutcomeTellsTheEnd(s: Status)
    ensures OutcomeFor(s) == Pending <==> !Terminal(s)
    ensures OutcomeFor(s) == Succeeded <==> s == Confirmed
    ensures OutcomeFor(s) == Failed <==> s == Rejected
    ensures OutcomeFor(s) == Unresolved <==> s == TimedOut || s == Superseded
  {
  }

  function SlotOf(c: Command): Slot {
    Slot(c.device, c.endpoint, c.capability, c.property)
  }

  function ScopeOf(c: Command): Scope {
    Scope(c.device, c.endpoint, c.capability, c.action, c.key)
  }

  predicate Live(c: Command) {
    !Terminal(c.status)
  }

  predicate SameParameters(a: map<string, PropertyValue>, b: map<string, PropertyValue>) {
    |a| == |b| && forall k :: k in a ==> k in b && a[k].Equal(b[k])
  }

  // ----- the invariant -----

  predicate WellFormed(c: Command) {
    && c.outcome == OutcomeFor(c.status)
    && (c.kind == PropertyCommand <==> c.property != "")
  }

  /** The index holds exactly the live property commands, each under its own slot. */
  ghost predicate PendingIndexed(s: State) {
    && (forall k :: k in s.pending ==>
          s.pending[k] in s.commands && Live(s.commands[s.pending[k]])
          && s.commands[s.pending[k]].kind == PropertyCommand && SlotOf(s.commands[s.pending[k]]) == k)
    && (forall id :: id in s.commands && s.commands[id].kind == PropertyCommand && Live(s.commands[id]) ==>
          SlotOf(s.commands[id]) in s.pending && s.pending[SlotOf(s.commands[id])] == id)
  }

  /** The idempotency table is in bijection with the retained keyed actions. */
  ghost predicate KeysIndexed(s: State) {
    && (forall k :: k in s.idempotency ==>
          s.idempotency[k] in s.commands && s.commands[s.idempotency[k]].kind == ActionCommand
          && s.commands[s.idempotency[k]].key != "" && ScopeOf(s.commands[s.idempotency[k]]) == k)
    && (forall id :: id in s.commands && s.commands[id].kind == ActionCommand && s.commands[id].key != "" ==>
          ScopeOf(s.commands[id]) in s.idempotency && s.idempotency[ScopeOf(s.commands[id])] == id)
  }

  ghost predicate Inv(s: State) {
    && s.maxItems >= 1
    && (forall id :: id in s.commands ==> s.commands[id].id == id && WellFormed(s.commands[id]))
    && PendingIndexed(s)
    && KeysIndexed(s)
  }

  function Terminals(commands: map<string, Command>): set<string> {
    set id | id in commands && Terminal(commands[id].status)
  }

  /** Either the limit holds, or next to nothing is left that could be evicted. */
  ghost predicate Bounded(s: State) {
    |s.commands| <= s.maxItems || |Terminals(s.commands)| <= 1
  }

  /** In every slot at most one property command is live. */
  lemma OneLivePerSlot(s: State, a: string, b: string)
    requires Inv(s) && a in s.commands && b in s.commands
    requires s.commands[a].kind == PropertyCommand && s.commands[b].kind == PropertyCommand
    requires Live(s.commands[a]) && Live(s.commands[b]) && SlotOf(s.commands[a]) == SlotOf(s.commands[b])
    ensures a == b
  {
    assert s.pending[SlotOf(s.commands[a])] == a;
  }

  // ----- eviction -----

  /**
   The oldest terminal commands go, and with them their idempotency entries, until the limit holds
   or no terminal command is left, and no further.
   */
  ghost predicate Evicts(s: State, limit: int, s': State) {
    && s'.commands.Keys <= s.commands.Keys
    && (forall id :: id in s'.commands ==> s'.commands[id] == s.commands[id])
    && s'.pending == s.pending && s'.maxItems == s.maxItems
    && s'.idempotency == (map k | k in s.idempotency && s.idempotency[k] in s'.commands :: s.idempotency[k])
    && (forall r :: r in s.commands && r !in s'.commands ==> Terminal(s.commands[r].status))
    && (forall r, k :: r in s.commands && r !in s'.commands && k in s'.commands && Terminal(s.commands[k].status) ==>
          s.commands[r].createdAt <= s.commands[k].createdAt)
    && (|s'.commands| <= limit || Terminals(s'.commands) == {})
    && (s'.commands.Keys != s.commands.Keys ==> |s'.commands| >= limit)
  }

  lemma EvictionKeepsInv(s: State, limit: int, s': State)
    requires Inv(s) && Evicts(s, limit, s')
    ensures Inv(s')
  {
  }

  // ----- operations, apart from eviction -----

  /** Replace or add a command. */
  function Put(s: State, c: Command): State {
    s.(commands := s.commands[c.id := c])
  }

  function Without<K, V>(m: map<K, V>, k: K): map<K, V> {
    m - {k}
  }

  function Resolve(c: Command, status: Status, error: string, now: int): Command {
    c.(status := status, outcome := OutcomeFor(status), error := error, updatedAt := now)
  }

  const REPLACED := "replaced by a newer command"

  datatype Begun = Begun(state: State, command: Command, superseded: Option<Command>, joined: bool)

  /** Join a pending command for the same value, replace one for another value, or start afresh. */
  function Begin(s: State, c: Command): Begun
    requires SlotOf(c) in s.pending ==> s.pending[SlotOf(c)] in s.commands
  {
    var k := SlotOf(c);
    var started := s.(commands := s.commands[c.id := c], pending := s.pending[k := c.id]);
    if k !in s.pending then Begun(started, c, None, false)
    else
      var previous := s.commands[s.pending[k]];
      if Terminal(previous.status) then Begun(started, c, None, false)
      else if previous.expected.Equal(c.expected) then
        var joined := previous.(coalesced := previous.coalesced + 1, updatedAt := c.createdAt);
        Begun(s.(commands := s.commands[s.pending[k] := joined]), joined, None, true)
      else
        var replaced := Resolve(previous, Superseded, REPLACED, c.createdAt);
        Begun(s.(commands := s.commands[s.pending[k] := replaced][c.id := c], pending := s.pending[k := c.id]),
              c, Some(replaced), false)
  }

  predicate NewProperty(s: State, c: Command) {
    c.id !in s.commands && c.kind == PropertyCommand && c.property != "" && c.status == Queued && c.outcome == Pending
  }

  predicate NewAction(s: State, c: Command) {
    c.id !in s.commands && c.kind == ActionCommand && c.property == "" && c.status == Queued && c.outcome == Pending
  }

  /** Store an action, under its key if it has one. */
  function BeginAction(s: State, c: Command): State {
    s.(commands := s.commands[c.id := c],
       idempotency := if c.key != "" then s.idempotency[ScopeOf(c) := c.id] else s.idempotency)
  }

  /** A status change; a terminal one also frees the slot. */
  function Move(s: State, id: string, status: Status, error: string, now: int): State
    requires id in s.commands
  {
    var c := s.commands[id];
    var s' := s.(commands := s.commands[id := Resolve(c, status, error, now)]);
    if Terminal(status) then s'.(pending := Without(s.pending, SlotOf(c))) else s'
  }

  predicate Expires(c: Command, now: int) {
    Live(c) && c.deadline <= now
  }

  /** Every overdue live command times out; the error text stays. */
  function Expire(s: State, now: int): State
    requires forall k :: k in s.pending ==> s.pending[k] in s.commands
  {
    s.(commands := map id | id in s.commands ::
         if Expires(s.commands[id], now) then Resolve(s.commands[id], TimedOut, s.commands[id].error, now) else s.commands[id],
       pending := map k | k in s.pending && !Expires(s.commands[s.pending[k]], now) :: s.pending[k])
  }

  // ----- the steps of the tracker -----

  datatype Op =
    | BeginPropertyOp(command: Command)
    | BeginActionOp(command: Command)
    | AddCoalescedOp(id: string, count: nat, now: int)
    | SupersedeOp(id: string, message: string, now: int)
    | TransitionOp(id: string, status: Status, message: string, now: int)
    | ConfirmOp(slot: Slot, value: PropertyValue, now: int)
    | ExpireOp(now: int)
    | SetMaxItemsOp(limit: int)

  ghost predicate BeginsProperty(s: State, c: Command, s': State) {
    NewProperty(s, c) && exists mid :: Evicts(s, s.maxItems - 1, mid) && Inv(mid) && s' == Begin(mid, c).state
  }

  ghost predicate BeginsAction(s: State, c: Command, s': State) {
    && NewAction(s, c)
    && (if c.key != "" && ScopeOf(c) in s.idempotency then s' == s
        else exists mid :: Evicts(s, s.maxItems - 1, mid) && s' == BeginAction(mid, c))
  }

  ghost predicate AddsCoalesced(s: State, id: string, count: nat, now: int, s': State) {
    s' == if count == 0 || id !in s.commands then s
          else s.(commands := s.commands[id := s.commands[id].(coalesced := s.commands[id].coalesced + count, updatedAt := now)])
  }

  /** A live command changes its status; if it ends, the history is trimmed. */
  ghost predicate Moves(s: State, id: string, status: Status, error: string, now: int, s': State) {
    if id !in s.commands || Terminal(s.commands[id].status) then s' == s
    else if Terminal(status) then Evicts(Move(s, id, status, error, now), s.maxItems, s')
    else s' == Move(s, id, status, error, now)
  }

  /** The live command of a slot is confirmed when the observed value is the one it asked for. */
  ghost predicate Confirms(s: State, slot: Slot, value: PropertyValue, now: int, s': State) {
    if slot !in s.pending || s.pending[slot] !in s.commands || !s.commands[s.pending[slot]].expected.Equal(value) then s' == s
    else
      var c := s.commands[s.pending[slot]];
      Evicts(s.(commands := s.commands[s.pending[slot] := Resolve(c, Confirmed, c.error, now)],
                pending := Without(s.pending, slot)), s.maxItems, s')
  }

  ghost predicate ExpiresAll(s: State, now: int, s': State) {
    Inv(s) && Evicts(Expire(s, now), s.maxItems, s')
  }

  ghost predicate Limits(s: State, limit: int, s': State) {
    var bound := if limit < 1 then 1 else limit;
    Evicts(s.(maxItems := bound), bound, s')
  }

  ghost predicate Step(s: State, op: Op, s': State) {
    match op
    case BeginPropertyOp(c) => BeginsProperty(s, c, s')
    case BeginActionOp(c) => BeginsAction(s, c, s')
    case AddCoalescedOp(id, count, now) => AddsCoalesced(s, id, count, now, s')
    case SupersedeOp(id, message, now) => Moves(s, id, Superseded, if message == "" then REPLACED else message, now, s')
    case TransitionOp(id, status, message, now) => Moves(s, id, status, message, now, s')
    case ConfirmOp(slot, value, now) => Confirms(s, slot, value, now, s')
    case ExpireOp(now) => ExpiresAll(s, now, s')
    case SetMaxItemsOp(limit) => Limits(s, limit, s')
  }

  /** What no operation may change about a command that has reached a terminal state. */
  predicate SameEnd(c: Command, c': Command) {
    c'.status == c.status && c'.outcome == c.outcome && c'.error == c.error
  }

  ghost predicate KeepsEnds(s: State, s': State) {
    forall id :: id in s.commands && Terminal(s.commands[id].status) && id in s'.commands ==>
      SameEnd(s.commands[id], s'.commands[id])
  }

  // ----- one command added or changed -----

  lemma StartKeepsInv(s: State, c: Command)
    requires Inv(s) && NewProperty(s, c) && SlotOf(c) !in s.pending
    ensures Inv(Begin(s, c).state)
  {
    var s' := Begin(s, c).state;
    assert s' == s.(commands := s.commands[c.id := c], pending := s.pending[SlotOf(c) := c.id]);
    StartKeepsKeys(s, c);
    StartKeepsPending(s, c);
  }

  lemma StartKeepsKeys(s: State, c: Command)
    requires Inv(s) && NewProperty(s, c)
    ensures KeysIndexed(s.(commands := s.commands[c.id := c], pending := s.pending[SlotOf(c) := c.id]))
  {
  }

  lemma StartKeepsPending(s: State, c: Command)
    requires Inv(s) && NewProperty(s, c) && SlotOf(c) !in s.pending
    ensures PendingIndexed(s.(commands := s.commands[c.id := c], pending := s.pending[SlotOf(c) := c.id]))
  {
  }

  /** A change that keeps a command's identity, kind, slot and liveness keeps both indexes. */
  lemma TouchKeepsInv(s: State, c: Command)
    requires Inv(s) && c.id in s.commands && WellFormed(c) && s.commands[c.id].kind == c.kind
    requires SlotOf(c) == SlotOf(s.commands[c.id]) && ScopeOf(c) == ScopeOf(s.commands[c.id])
    requires Live(c) == Live(s.commands[c.id])
    ensures Inv(Put(s, c))
  {
  }

  lemma MoveKeepsPending(s: State, id: string, status: Status, error: string, now: int)
    requires Inv(s) && id in s.commands && Live(s.commands[id]) && Terminal(status)
    ensures PendingIndexed(Move(s, id, status, error, now))
  {
    var s' := Move(s, id, status, error, now);
    forall i | i in s'.commands && s'.commands[i].kind == PropertyCommand && Live(s'.commands[i])
      ensures SlotOf(s'.commands[i]) in s'.pending && s'.pending[SlotOf(s'.commands[i])] == i
    {
      assert i != id && s'.commands[i] == s.commands[i] && s.pending[SlotOf(s.commands[i])] == i;
      assert s.commands[id].kind == PropertyCommand ==> s.pending[SlotOf(s.commands[id])] == id;
    }
  }

  lemma MoveKeepsKeys(s: State, id: string, status: Status, error: string, now: int)
    requires Inv(s) && id in s.commands
    ensures KeysIndexed(Move(s, id, status, error, now))
  {
  }

  lemma MoveKeepsInv(s: State, id: string, status: Status, error: string, now: int)
    requires Inv(s) && id in s.commands && Live(s.commands[id])
    ensures Inv(Move(s, id, status, error, now))
  {
    if Terminal(status) {
      MoveKeepsPending(s, id, status, error, now);
      MoveKeepsKeys(s, id, status, error, now);
    } else {
      TouchKeepsInv(s, Resolve(s.commands[id], status, error, now));
    }
  }

  lemma BeginKeepsInv(s: State, c: Command)
    requires Inv(s) && NewProperty(s, c)
    ensures Inv(Begin(s, c).state)
  {
    if SlotOf(c) !in s.pending {
      StartKeepsInv(s, c);
    } else {
      var previous := s.pending[SlotOf(c)];
      if Begin(s, c).joined {
        TouchKeepsInv(s, s.commands[previous].(coalesced := s.commands[previous].coalesced + 1, updatedAt := c.createdAt));
      } else {
        ReplaceIsMoveThenStart(s, c);
      }
    }
  }

  /** Replacing a pending command is ending it and then starting afresh. */
  lemma ReplaceIsMoveThenStart(s: State, c: Command)
    requires Inv(s) && NewProperty(s, c) && SlotOf(c) in s.pending && !Begin(s, c).joined
    ensures Inv(Begin(s, c).state)
  {
    var ended := Move(s, s.pending[SlotOf(c)], Superseded, REPLACED, c.createdAt);
    MoveKeepsInv(s, s.pending[SlotOf(c)], Superseded, REPLACED, c.createdAt);
    SameAfterReplacing(s, c, ended);
    StartKeepsInv(ended, c);
  }

  lemma SameAfterReplacing(s: State, c: Command, ended: State)
    requires Inv(s) && NewProperty(s, c) && SlotOf(c) in s.pending && !Begin(s, c).joined
    requires ended == Move(s, s.pending[SlotOf(c)], Superseded, REPLACED, c.createdAt)
    ensures SlotOf(c) !in ended.pending && Begin(ended, c).state == Begin(s, c).state
  {
    assert Begin(ended, c).state.pending == Begin(s, c).state.pending;
  }

  lemma BeginActionKeepsInv(s: State, c: Command)
    requires Inv(s) && NewAction(s, c) && (c.key != "" ==> ScopeOf(c) !in s.idempotency)
    ensures Inv(BeginAction(s, c))
  {
  }

  lemma ExpireKeepsInv(s: State, now: int)
    requires Inv(s)
    ensures Inv(Expire(s, now))
  {
    ExpireKeepsPending(s, now);
  }

  lemma ExpireKeepsPending(s: State, now: int)
    requires Inv(s)
    ensures PendingIndexed(Expire(s, now))
  {
  }

  // ----- what a caller sees -----

  /** Live property commands for a slot, wherever they are kept. */
  predicate LiveFor(s: State, id: string, slot: Slot) {
    id in s.commands && s.commands[id].kind == PropertyCommand && Live(s.commands[id]) && SlotOf(s.commands[id]) == slot
  }

  /**
   Asking for a value joins a live command exactly if the slot has one for that value. Afterwards the
   answer is the one live command of the slot and asks for the value; the command it replaced, if any,
   was live before and is superseded; and no other command has changed.
   */
  lemma BeginServesTheNewest(s: State, c: Command)
    requires Inv(s) && NewProperty(s, c)
    ensures var r := Begin(s, c);
            && (r.joined <==> exists id :: LiveFor(s, id, SlotOf(c)) && s.commands[id].expected.Equal(c.expected))
            && (forall id :: LiveFor(r.state, id, SlotOf(c)) <==> id == r.command.id)
            && r.command.id in r.state.commands && r.state.commands[r.command.id] == r.command
            && (r.joined ==> r.command.expected.Equal(c.expected)) && (!r.joined ==> r.command == c)
            && (r.superseded.Some? <==> !r.joined && exists id :: LiveFor(s, id, SlotOf(c)))
            && (forall id :: id in s.commands && id != r.command.id ==> id in r.state.commands)
            && (forall id :: id in s.commands && id != r.command.id ==>
                  if LiveFor(s, id, SlotOf(c)) then r.superseded == Some(r.state.commands[id]) && r.state.commands[id].status == Superseded
                  else r.state.commands[id] == s.commands[id])
  {
    var slot := SlotOf(c);
    if slot in s.pending {
      assert LiveFor(s, s.pending[slot], slot);
    }
    forall id | LiveFor(s, id, slot)
      ensures slot in s.pending && s.pending[slot] == id
    {
    }
  }

  /** After expiry nothing overdue is live; what was timed out was overdue, and nothing else has changed. */
  lemma NothingOverdueStaysLive(s: State, now: int)
    requires Inv(s)
    ensures Expire(s, now).commands.Keys == s.commands.Keys
    ensures forall id :: id in s.commands ==>
              var c, c' := s.commands[id], Expire(s, now).commands[id];
              && (Live(c') ==> now < c'.deadline)
              && (c' != c ==> Live(c) && c.deadline <= now && c'.status == TimedOut && c'.outcome == Unresolved && c'.error == c.error)
  {
  }

  // ----- retention -----

  lemma AtMostOne(set1: set<string>, x: string)
    requires set1 <= {x}
    ensures |set1| <= 1
  {
    if x in set1 {
      assert set1 == {x};
    } else {
      assert set1 == {};
    }
  }

  lemma KeysWithin(a: set<string>, b: set<string>)
    requires a <= b
    ensures |a| <= |b|
  {
    assert b == a + (b - a);
  }

  /** A new command fits after eviction, or nothing terminal is left but the one command it replaced. */
  lemma AdditionStaysBounded(mid: State, limit: int, s': State, id: string, replaced: string)
    requires |mid.commands| <= limit - 1 || Terminals(mid.commands) == {}
    requires s'.maxItems == limit && s'.commands.Keys <= mid.commands.Keys + {id}
    requires Terminals(s'.commands) <= Terminals(mid.commands) + {replaced}
    ensures Bounded(s')
  {
    if |mid.commands| <= limit - 1 {
      KeysWithin(s'.commands.Keys, mid.commands.Keys + {id});
      assert |mid.commands.Keys + {id}| <= |mid.commands.Keys| + 1;
    } else {
      AtMostOne(Terminals(s'.commands), replaced);
    }
  }

  lemma ChangeStaysBounded(s: State, s': State)
    requires Bounded(s) && s'.commands.Keys == s.commands.Keys && s'.maxItems == s.maxItems
    requires Terminals(s'.commands) == Terminals(s.commands)
    ensures Bounded(s')
  {
    assert |s'.commands| == |s'.commands.Keys| && |s.commands| == |s.commands.Keys|;
  }

  lemma EvictionIsBounded(s: State, s': State)
    requires Evicts(s, s.maxItems, s')
    ensures Bounded(s')
  {
  }

  // ----- how commands end -----

  lemma EndsCompose(s: State, mid: State, s': State)
    requires KeepsEnds(s, mid) && KeepsEnds(mid, s')
    requires forall id :: id in s.commands && id in s'.commands ==> id in mid.commands
    ensures KeepsEnds(s, s')
  {
  }

  lemma EvictionKeepsEnds(s: State, limit: int, s': State)
    requires Evicts(s, limit, s')
    ensures KeepsEnds(s, s')
  {
  }

  lemma BeginKeepsEnds(s: State, c: Command)
    requires Inv(s) && NewProperty(s, c)
    ensures KeepsEnds(s, Begin(s, c).state) && Begin(s, c).state.commands.Keys <= s.commands.Keys + {c.id}
  {
  }

  lemma MoveKeepsEnds(s: State, id: string, status: Status, error: string, now: int)
    requires id in s.commands && Live(s.commands[id])
    ensures KeepsEnds(s, Move(s, id, status, error, now))
  {
  }

  // ----- the operations one by one -----

  ghost predicate Sound(s: State, s': State) {
    Inv(s') && Bounded(s') && KeepsEnds(s, s')
  }

  lemma EvictionIsSound(s: State, middle: State, s': State)
    requires Inv(middle) && KeepsEnds(s, middle) && s.commands.Keys <= middle.commands.Keys
    requires Evicts(middle, middle.maxItems, s')
    ensures Sound(s, s')
  {
    EvictionKeepsInv(middle, middle.maxItems, s');
    EvictionIsBounded(middle, s');
    EvictionKeepsEnds(middle, middle.maxItems, s');
    EndsCompose(s, middle, s');
  }

  lemma BeginAfterEvictionIsSound(s: State, mid: State, c: Command)
    requires Inv(s) && NewProperty(s, c) && Evicts(s, s.maxItems - 1, mid)
    ensures Inv(mid) && Sound(s, Begin(mid, c).state)
  {
    EvictionKeepsInv(s, s.maxItems - 1, mid);
    EvictionKeepsEnds(s, s.maxItems - 1, mid);
    BeginKeepsInv(mid, c);
    BeginKeepsEnds(mid, c);
    EndsCompose(s, mid, Begin(mid, c).state);
    BeginStaysBounded(mid, c, s.maxItems);
  }

  lemma BeginStaysBounded(mid: State, c: Command, limit: int)
    requires Inv(mid) && NewProperty(mid, c) && mid.maxItems == limit
    requires |mid.commands| <= limit - 1 || Terminals(mid.commands) == {}
    ensures Bounded(Begin(mid, c).state)
  {
    var replaced := if SlotOf(c) in mid.pending then mid.pending[SlotOf(c)] else c.id;
    BeginEndsAtMostOne(mid, c, replaced);
    AdditionStaysBounded(mid, limit, Begin(mid, c).state, c.id, replaced);
  }

  lemma BeginEndsAtMostOne(mid: State, c: Command, replaced: string)
    requires Inv(mid) && NewProperty(mid, c)
    requires replaced == if SlotOf(c) in mid.pending then mid.pending[SlotOf(c)] else c.id
    ensures Begin(mid, c).state.commands.Keys <= mid.commands.Keys + {c.id}
    ensures Terminals(Begin(mid, c).state.commands) <= Terminals(mid.commands) + {replaced}
  {
  }

  lemma ActionAfterEvictionIsSound(s: State, mid: State, c: Command)
    requires Inv(s) && NewAction(s, c) && Evicts(s, s.maxItems - 1, mid) && (c.key != "" ==> ScopeOf(c) !in s.idempotency)
    ensures Sound(s, BeginAction(mid, c))
  {
    EvictionKeepsInv(s, s.maxItems - 1, mid);
    BeginActionKeepsInv(mid, c);
    AdditionStaysBounded(mid, s.maxItems, BeginAction(mid, c), c.id, c.id);
  }

  lemma BeginIsSound(s: State, c: Command, s': State)
    requires Inv(s) && BeginsProperty(s, c, s')
    ensures Sound(s, s')
  {
    var mid :| Evicts(s, s.maxItems - 1, mid) && Inv(mid) && s' == Begin(mid, c).state;
    BeginAfterEvictionIsSound(s, mid, c);
  }

  lemma ActionIsSound(s: State, c: Command, s': State)
    requires Inv(s) && Bounded(s) && BeginsAction(s, c, s')
    ensures Sound(s, s')
  {
    if !(c.key != "" && ScopeOf(c) in s.idempotency) {
      var mid :| Evicts(s, s.maxItems - 1, mid) && s' == BeginAction(mid, c);
      ActionAfterEvictionIsSound(s, mid, c);
    }
  }

  lemma TouchStaysBounded(s: State, c: Command)
    requires Bounded(s) && c.id in s.commands && Live(c) == Live(s.commands[c.id])
    ensures Bounded(Put(s, c))
  {
    var s' := Put(s, c);
    assert s'.commands.Keys == s.commands.Keys;
    assert Terminals(s'.commands) == Terminals(s.commands);
    ChangeStaysBounded(s, s');
  }

  lemma TouchKeepsEnds(s: State, c: Command)
    requires c.id in s.commands && (Terminal(s.commands[c.id].status) ==> SameEnd(s.commands[c.id], c))
    ensures KeepsEnds(s, Put(s, c))
  {
  }

  lemma CoalescingIsSound(s: State, id: string, count: nat, now: int, s': State)
    requires Inv(s) && Bounded(s) && AddsCoalesced(s, id, count, now, s')
    ensures Sound(s, s')
  {
    if count > 0 && id in s.commands {
      var c := s.commands[id].(coalesced := s.commands[id].coalesced + count, updatedAt := now);
      TouchKeepsInv(s, c);
      TouchStaysBounded(s, c);
      TouchKeepsEnds(s, c);
      assert s' == Put(s, c);
    }
  }

  lemma OpenMoveIsSound(s: State, id: string, status: Status, error: string, now: int)
    requires Inv(s) && Bounded(s) && id in s.commands && Live(s.commands[id]) && !Terminal(status)
    ensures Sound(s, Move(s, id, status, error, now))
  {
    var c := Resolve(s.commands[id], status, error, now);
    TouchKeepsInv(s, c);
    TouchStaysBounded(s, c);
    TouchKeepsEnds(s, c);
    assert Move(s, id, status, error, now) == Put(s, c);
  }

  lemma MoveIsSound(s: State, id: string, status: Status, error: string, now: int, s': State)
    requires Inv(s) && Bounded(s) && Moves(s, id, status, error, now, s')
    ensures Sound(s, s')
  {
    if id in s.commands && Live(s.commands[id]) {
      if Terminal(status) {
        MoveKeepsInv(s, id, status, error, now);
        MoveKeepsEnds(s, id, status, error, now);
        EvictionIsSound(s, Move(s, id, status, error, now), s');
      } else {
        OpenMoveIsSound(s, id, status, error, now);
      }
    }
  }

  /** Confirm does not look at the status, but the index only ever names live commands. */
  lemma ConfirmIsSound(s: State, slot: Slot, value: PropertyValue, now: int, s': State)
    requires Inv(s) && Bounded(s) && Confirms(s, slot, value, now, s')
    ensures Sound(s, s')
  {
    if slot in s.pending && s.commands[s.pending[slot]].expected.Equal(value) {
      MoveIsSound(s, s.pending[slot], Confirmed, s.commands[s.pending[slot]].error, now, s');
    }
  }

  lemma ExpireIsSound(s: State, now: int, s': State)
    requires Inv(s) && ExpiresAll(s, now, s')
    ensures Sound(s, s')
  {
    ExpireKeepsInv(s, now);
    EvictionIsSound(s, Expire(s, now), s');
  }

  lemma LimitIsSound(s: State, limit: int, s': State)
    requires Inv(s) && Limits(s, limit, s')
    ensures Sound(s, s')
  {
    EvictionIsSound(s, s.(maxItems := if limit < 1 then 1 else limit), s');
  }

  // ----- whole runs -----

  const EMPTY: State := State(map[], map[], map[], 1000)

  ghost predicate IsRun(states: seq<State>, ops: seq<Op>) {
    && |states| == |ops| + 1 && states[0] == EMPTY
    && (forall i :: 0 <= i < |ops| ==> Step(states[i], ops[i], states[i + 1]))
  }

  /** The indexes, the outcomes and the retention limit hold at every point of every run. */
  lemma {:induction false} RunInvariant(states: seq<State>, ops: seq<Op>, i: nat)
    requires IsRun(states, ops) && i < |states|
    ensures Inv(states[i]) && Bounded(states[i])
  {
    if i > 0 {
      RunInvariant(states, ops, i - 1);
      assert Step(states[i - 1], ops[i - 1], states[i]);
      StepInvariant(states[i - 1], ops[i - 1], states[i]);
    }
  }

  /** Every operation keeps the invariant and the limit, and no operation changes how a command ended. */
  lemma StepInvariant(s: State, op: Op, s': State)
    requires Inv(s) && Bounded(s) && Step(s, op, s')
    ensures Inv(s') && Bounded(s') && KeepsEnds(s, s')
  {
    match op
    case BeginPropertyOp(c) => BeginIsSound(s, c, s');
    case BeginActionOp(c) => ActionIsSound(s, c, s');
    case AddCoalescedOp(id, count, now) => CoalescingIsSound(s, id, count, now, s');
    case SupersedeOp(id, message, now) => MoveIsSound(s, id, Superseded, if message == "" then REPLACED else message, now, s');
    case TransitionOp(id, status, message, now) => MoveIsSound(s, id, status, message, now, s');
    case ConfirmOp(slot, value, now) => ConfirmIsSound(s, slot, value, now, s');
    case ExpireOp(now) => ExpireIsSound(s, now, s');
    case SetMaxItemsOp(limit) => LimitIsSound(s, limit, s');
  }

  lemma {:induction false} EndsPersist(states: seq<State>, i: nat, j: nat, id: string)
    requires i <= j < |states| && forall k :: i <= k < j ==> KeepsEnds(states[k], states[k + 1])
    requires forall k :: i <= k <= j ==> id in states[k].commands
    requires Terminal(states[i].commands[id].status)
    ensures SameEnd(states[i].commands[id], states[j].commands[id])
  {
    if i < j {
      EndsPersist(states, i, j - 1, id);
      assert KeepsEnds(states[j - 1], states[j]);
    }
  }

  lemma RunKeepsEnds(states: seq<State>, ops: seq<Op>, k: nat)
    requires IsRun(states, ops) && k < |ops|
    ensures KeepsEnds(states[k], states[k + 1])
  {
    RunInvariant(states, ops, k);
    StepInvariant(states[k], ops[k], states[k + 1]);
  }

  /** Once terminal, a command keeps its status, outcome and error for as long as it is retained. */
  lemma TerminalForever(states: seq<State>, ops: seq<Op>, i: nat, j: nat, id: string)
    requires IsRun(states, ops) && i <= j < |states|
    requires forall k :: i <= k <= j ==> id in states[k].commands
    requires Terminal(states[i].commands[id].status)
    ensures SameEnd(states[i].commands[id], states[j].commands[id])
  {
    forall k | i <= k < j
      ensures KeepsEnds(states[k], states[k + 1])
    {
      RunKeepsEnds(states, ops, k);
    }
    EndsPersist(states, i, j, id);
  }

  /** One action per key: two retained actions with the same scope are one and the same. */
  lemma OneActionPerKey(states: seq<State>, ops: seq<Op>, i: nat, a: string, b: string)
    requires IsRun(states, ops) && i < |states| && a in states[i].commands && b in states[i].commands
    requires var c, d := states[i].commands[a], states[i].commands[b];
             c.kind == ActionCommand && d.kind == ActionCommand && c.key != "" && ScopeOf(c) == ScopeOf(d)
    ensures a == b
  {
    RunInvariant(states, ops, i);
    assert states[i].idempotency[ScopeOf(states[i].commands[a])] == a;
  }
}
