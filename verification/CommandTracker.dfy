/** The tracker itself: three maps and a limit, updated in place under one lock. */
module CommandTracker {
  import opened Options
  import opened Values
  import opened CommandState

  const NO_VALUE: PropertyValue := PropertyValue(Unknown(""), None, None, None, None)

  function PropertyRequest(id: string, slot: Slot, value: PropertyValue, correlation: string, now: int, timeout: int): Command {
    Command(id, PropertyCommand, slot.device, slot.endpoint, slot.capability, slot.property, "", value, map[], "", correlation,
            0, Queued, Pending, "", now, now, now + timeout)
  }

  function ActionRequest(id: string, scope: Scope, parameters: map<string, PropertyValue>, correlation: string,
                         now: int, timeout: int): Command {
    Command(id, ActionCommand, scope.device, scope.endpoint, scope.capability, "", scope.action, NO_VALUE, parameters,
            scope.key, correlation, 0, Queued, Pending, "", now, now, now + timeout)
  }

  class Tracker {
    var commands: map<string, Command>
    var pending: map<Slot, string>
    var idempotency: map<Scope, string>
    var maxItems: int
    var timeout: int

    ghost function Abs(): State
      reads this
    {
      State(commands, pending, idempotency, maxItems)
    }

    constructor (timeout: int)
      ensures Abs() == EMPTY && this.timeout == timeout
      ensures commands == map[] && pending == map[] && idempotency == map[] && maxItems == 1000
    {
      commands, pending, idempotency, maxItems := map[], map[], map[], 1000;
      this.timeout := timeout;
    }

    /** The terminal command with the least creation time, if there is a terminal command. */
    method OldestTerminal() returns (oldest: Option<string>)
      ensures oldest.None? <==> Terminals(commands) == {}
      ensures oldest.Some? ==>
                && oldest.value in commands && Terminal(commands[oldest.value].status)
                && forall id :: id in Terminals(commands) ==> commands[oldest.value].createdAt <= commands[id].createdAt
    {
      oldest := None;
      var left := commands.Keys;
      while left != {}
        invariant left <= commands.Keys
        invariant oldest.None? ==> forall id :: id in commands && Terminal(commands[id].status) ==> id in left
        invariant oldest.Some? ==>
                    && oldest.value in commands && Terminal(commands[oldest.value].status)
                    && forall id :: id in commands && Terminal(commands[id].status) && id !in left ==>
                         commands[oldest.value].createdAt <= commands[id].createdAt
        decreases |left|
      {
        var id :| id in left;
        left := left - {id};
        if Terminal(commands[id].status) && (oldest.None? || commands[id].createdAt < commands[oldest.value].createdAt) {
          oldest := Some(id);
        }
      }
      assert oldest.Some? ==> oldest.value in Terminals(commands);
    }

    /** Remove the oldest terminal command together with its idempotency entry. */
    method RemoveOldestTerminal() returns (removed: bool, ghost id: string)
      modifies this`commands, this`idempotency
      ensures removed <==> Terminals(old(commands)) != {}
      ensures !removed ==> Abs() == old(Abs())
      ensures removed ==>
                && id in old(commands) && Terminal(old(commands)[id].status)
                && (forall k :: k in Terminals(old(commands)) ==> old(commands)[id].createdAt <= old(commands)[k].createdAt)
                && commands == old(commands) - {id}
                && idempotency == map k | k in old(idempotency) && old(idempotency)[k] != id :: old(idempotency)[k]
    {
      var oldest := OldestTerminal();
      if oldest.None? {
        return false, "";
      }
      commands := commands - {oldest.value};
      Forget(oldest.value);
      return true, oldest.value;
    }

    /** Drop the idempotency entries of a command. */
    method Forget(id: string)
      modifies this`idempotency
      ensures idempotency == map k | k in old(idempotency) && old(idempotency)[k] != id :: old(idempotency)[k]
    {
      var left := idempotency.Keys;
      ghost var before := idempotency;
      while left != {}
        invariant left <= before.Keys
        invariant idempotency == map k | k in before && (k in left || before[k] != id) :: before[k]
        decreases |left|
      {
        var key :| key in left;
        left := left - {key};
        if idempotency[key] == id {
          idempotency := idempotency - {key};
        }
      }
    }

    /** Trim the history down to a limit; only terminal commands can go, so it may stay above. */
    method EvictDownTo(limit: int)
      requires forall k :: k in idempotency ==> idempotency[k] in commands
      modifies this`commands, this`idempotency
      ensures Evicts(old(Abs()), limit, Abs())
    {
      ghost var start := Abs();
      while |commands| > limit
        invariant Trimmed(start, limit, Abs())
        invariant forall k :: k in idempotency ==> idempotency[k] in commands
        decreases |commands|
      {
        ghost var here := Abs();
        var removed, id := RemoveOldestTerminal();
        if !removed {
          return;
        }
        RemovalShrinks(here.commands, id);
        TrimOneMore(start, limit, here, id, Abs());
      }
    }

    static lemma RemovalShrinks(m: map<string, Command>, id: string)
      requires id in m
      ensures |m - {id}| == |m| - 1
    {
      assert (m - {id}).Keys == m.Keys - {id};
      assert |(m - {id}).Keys| == |m - {id}| && |m.Keys| == |m|;
    }

    /** Part of the way to an eviction: oldest first, and never past the limit. */
    static ghost predicate Trimmed(s: State, limit: int, s': State) {
      && s'.commands.Keys <= s.commands.Keys
      && (forall id :: id in s'.commands ==> s'.commands[id] == s.commands[id])
      && s'.pending == s.pending && s'.maxItems == s.maxItems
      && s'.idempotency == (map k | k in s.idempotency && s.idempotency[k] in s'.commands :: s.idempotency[k])
      && (forall r :: r in s.commands && r !in s'.commands ==> Terminal(s.commands[r].status))
      && (forall r, k :: r in s.commands && r !in s'.commands && k in s'.commands && Terminal(s.commands[k].status) ==>
            s.commands[r].createdAt <= s.commands[k].createdAt)
      && (s'.commands.Keys != s.commands.Keys ==> |s'.commands| >= limit)
    }

    static lemma TrimOneMore(s: State, limit: int, here: State, id: string, s': State)
      requires Trimmed(s, limit, here) && |here.commands| > limit
      requires id in here.commands && Terminal(here.commands[id].status)
      requires forall k :: k in Terminals(here.commands) ==> here.commands[id].createdAt <= here.commands[k].createdAt
      requires s'.commands == here.commands - {id} && |s'.commands| == |here.commands| - 1
      requires s'.idempotency == (map k | k in here.idempotency && here.idempotency[k] != id :: here.idempotency[k])
      requires s'.pending == here.pending && s'.maxItems == here.maxItems
      ensures Trimmed(s, limit, s')
      ensures forall k :: k in s'.idempotency ==> s'.idempotency[k] in s'.commands
    {
      assert s'.idempotency == map k | k in s.idempotency && s.idempotency[k] in s'.commands :: s.idempotency[k];
      StillOldestFirst(s, limit, here, id, s'.commands);
    }

    static lemma StillOldestFirst(s: State, limit: int, here: State, id: string, kept: map<string, Command>)
      requires Trimmed(s, limit, here) && id in here.commands && Terminal(here.commands[id].status)
      requires forall k :: k in Terminals(here.commands) ==> here.commands[id].createdAt <= here.commands[k].createdAt
      requires kept == here.commands - {id}
      ensures forall r, k :: r in s.commands && r !in kept && k in kept && Terminal(s.commands[k].status) ==>
                s.commands[r].createdAt <= s.commands[k].createdAt
    {
      forall r, k | r in s.commands && r !in kept && k in kept && Terminal(s.commands[k].status)
        ensures s.commands[r].createdAt <= s.commands[k].createdAt
      {
        assert k in Terminals(here.commands);
      }
    }

    method SetMaxItems(limit: int)
      requires Inv(Abs())
      modifies this
      ensures Step(old(Abs()), SetMaxItemsOp(limit), Abs()) && timeout == old(timeout)
    {
      maxItems := if limit < 1 then 1 else limit;
      EvictDownTo(maxItems);
    }

    /** Start a property command, join the pending one for the same value, or replace it. */
    method BeginProperty(id: string, device: string, endpoint: string, capability: string, property: string,
                         value: PropertyValue, correlation: string, now: int)
      returns (command: Command, superseded: Option<Command>, joined: bool, ghost mid: State)
      requires Inv(Abs()) && id !in commands && property != ""
      modifies this`commands, this`pending, this`idempotency
      ensures var c := PropertyRequest(id, Slot(device, endpoint, capability, property), value, correlation, now, timeout);
              && Evicts(old(Abs()), maxItems - 1, mid) && Inv(mid)
              && Begin(mid, c) == Begun(Abs(), command, superseded, joined)
              && Step(old(Abs()), BeginPropertyOp(c), Abs())
      ensures command.id in commands && commands[command.id] == command && command.kind == PropertyCommand
      ensures command.device == device && command.endpoint == endpoint && command.capability == capability && command.property == property
      ensures joined ==> command.id in old(commands) && command.expected.Equal(value)
      ensures !joined ==> command.id == id && command.expected == value && command.correlation == correlation
                          && command.status == Queued && command.deadline == now + timeout
    {
      var c := PropertyRequest(id, Slot(device, endpoint, capability, property), value, correlation, now, timeout);
      command, superseded, joined, mid := PruneAndBegin(c);
      AnswerIsHeld(mid, id, Slot(device, endpoint, capability, property), value, correlation, now, timeout);
    }

    /** The locked section of starting a property command. */
    method PruneAndBegin(c: Command) returns (command: Command, superseded: Option<Command>, joined: bool, ghost mid: State)
      requires Inv(Abs()) && NewProperty(Abs(), c)
      modifies this`commands, this`pending, this`idempotency
      ensures Evicts(old(Abs()), maxItems - 1, mid) && Inv(mid) && Begin(mid, c) == Begun(Abs(), command, superseded, joined)
      ensures Step(old(Abs()), BeginPropertyOp(c), Abs())
    {
      Prune();
      mid := Abs();
      command, superseded, joined := StartOrJoin(c);
      BeginningSteps(old(Abs()), mid, c, Abs());
    }

    /** Make room for one more. */
    method Prune()
      requires Inv(Abs())
      modifies this`commands, this`idempotency
      ensures Evicts(old(Abs()), maxItems - 1, Abs()) && Inv(Abs())
    {
      EvictDownTo(maxItems - 1);
      EvictionKeepsInv(old(Abs()), maxItems - 1, Abs());
    }

    static lemma BeginningSteps(s: State, mid: State, c: Command, s': State)
      requires NewProperty(s, c) && Evicts(s, s.maxItems - 1, mid) && Inv(mid) && s' == Begin(mid, c).state
      ensures Step(s, BeginPropertyOp(c), s')
    {
    }

    /** The answer is held, and a joined command is one for the same slot and value. */
    static lemma AnswerIsHeld(mid: State, id: string, slot: Slot, value: PropertyValue, correlation: string, now: int, timeout: int)
      requires Inv(mid)
      ensures var r := Begin(mid, PropertyRequest(id, slot, value, correlation, now, timeout));
              && r.command.id in r.state.commands && r.state.commands[r.command.id] == r.command && r.command.kind == PropertyCommand
              && r.command.device == slot.device && r.command.endpoint == slot.endpoint
              && r.command.capability == slot.capability && r.command.property == slot.property
              && if r.joined then r.command.id in mid.commands && r.command.expected.Equal(value)
                 else r.command.id == id && r.command.expected == value && r.command.correlation == correlation
                      && r.command.status == Queued && r.command.deadline == now + timeout
    {
    }

    /** The part of starting a property command that follows the pruning. */
    method StartOrJoin(c: Command) returns (command: Command, superseded: Option<Command>, joined: bool)
      requires SlotOf(c) in pending ==> pending[SlotOf(c)] in commands
      modifies this`commands, this`pending
      ensures Begin(old(Abs()), c) == Begun(Abs(), command, superseded, joined)
    {
      var k := SlotOf(c);
      superseded := None;
      if k in pending {
        var previous := commands[pending[k]];
        if !Terminal(previous.status) {
          if previous.expected.Equal(c.expected) {
            previous := previous.(coalesced := previous.coalesced + 1, updatedAt := c.createdAt);
            commands := commands[pending[k] := previous];
            return previous, None, true;
          }
          previous := previous.(status := Status.Superseded, outcome := Unresolved, error := REPLACED, updatedAt := c.createdAt);
          commands := commands[pending[k] := previous];
          superseded := Some(previous);
        }
      }
      commands := commands[c.id := c];
      pending := pending[k := c.id];
      return c, superseded, false;
    }

    method AddCoalesced(id: string, count: nat, now: int) returns (updated: bool)
      modifies this`commands
      ensures Step(old(Abs()), AddCoalescedOp(id, count, now), Abs())
      ensures updated <==> count > 0 && id in old(commands)
    {
      if count == 0 || id !in commands {
        return false;
      }
      var command := commands[id];
      command := command.(coalesced := command.coalesced + count, updatedAt := now);
      commands := commands[id := command];
      return true;
    }

    method Supersede(id: string, message: string, now: int) returns (changed: bool)
      requires Inv(Abs())
      modifies this`commands, this`pending, this`idempotency
      ensures Step(old(Abs()), SupersedeOp(id, message, now), Abs())
      ensures changed <==> id in old(commands) && Live(old(commands)[id])
    {
      if id !in commands || Terminal(commands[id].status) {
        return false;
      }
      var text := if message == "" then REPLACED else message;
      MoveKeepsInv(Abs(), id, Status.Superseded, text, now);
      EndSuperseded(id, text, now);
      EvictDownTo(maxItems);
      return true;
    }

    /** End a live command and free its slot, if the slot is its own. */
    method EndSuperseded(id: string, text: string, now: int)
      requires Inv(Abs()) && id in commands && Live(commands[id])
      modifies this`commands, this`pending
      ensures Abs() == Move(old(Abs()), id, Status.Superseded, text, now)
    {
      var command := commands[id];
      var key := SlotOf(command);
      commands := commands[id := command.(status := Status.Superseded, outcome := Unresolved, error := text, updatedAt := now)];
      if key in pending && pending[key] == id {
        pending := pending - {key};
      }
      assert pending == old(pending) - {key};
    }

    /** Start an action; a key that was used before answers with the command it started, or refuses. */
    method BeginAction(id: string, device: string, endpoint: string, capability: string, action: string,
                       parameters: map<string, PropertyValue>, key: string, correlation: string, now: int)
      returns (command: Option<Command>, replayed: bool)
      requires Inv(Abs()) && id !in commands
      modifies this`commands, this`idempotency
      ensures var c := ActionRequest(id, Scope(device, endpoint, capability, action, key), parameters, correlation, now, timeout);
              && Step(old(Abs()), BeginActionOp(c), Abs())
              && (if key != "" && ScopeOf(c) in old(idempotency) then
                    var existing := old(commands)[old(idempotency)[ScopeOf(c)]];
                    && Abs() == old(Abs())
                    && replayed == SameParameters(existing.parameters, parameters)
                    && command == if replayed then Some(existing) else None
                  else !replayed && command == Some(c) && id in commands && commands[id] == c)
    {
      var c := ActionRequest(id, Scope(device, endpoint, capability, action, key), parameters, correlation, now, timeout);
      if key != "" && ScopeOf(c) in idempotency {
        var existing := commands[idempotency[ScopeOf(c)]];
        var same := SameParameters(existing.parameters, parameters);
        return if same then Some(existing) else None, same;
      }
      EvictDownTo(maxItems - 1);
      Store(c);
      return Some(c), false;
    }

    method Store(c: Command)
      modifies this`commands, this`idempotency
      ensures Abs() == CommandState.BeginAction(old(Abs()), c)
      ensures c.id in commands && commands[c.id] == c
    {
      commands := commands[c.id := c];
      if c.key != "" {
        idempotency := idempotency[ScopeOf(c) := c.id];
      }
    }

    /** Sent, accepted, confirmed and rejected all go through here. */
    method Transition(id: string, status: Status, message: string, now: int) returns (changed: bool)
      requires Inv(Abs())
      modifies this`commands, this`pending, this`idempotency
      ensures Step(old(Abs()), TransitionOp(id, status, message, now), Abs())
      ensures changed <==> id in old(commands) && Live(old(commands)[id])
    {
      if id !in commands || Terminal(commands[id].status) {
        return false;
      }
      var command := commands[id];
      commands := commands[id := command.(status := status, error := message, updatedAt := now, outcome := OutcomeFor(status))];
      MoveKeepsInv(old(Abs()), id, status, message, now);
      if Terminal(status) {
        pending := pending - {SlotOf(command)};
        assert Abs() == Move(old(Abs()), id, status, message, now);
        EvictDownTo(maxItems);
      }
      return true;
    }

    /** An observed value confirms the pending command that asked for it; the status is not looked at. */
    method Confirm(slot: Slot, value: PropertyValue, now: int) returns (confirmed: bool)
      requires Inv(Abs())
      modifies this`commands, this`pending, this`idempotency
      ensures Step(old(Abs()), ConfirmOp(slot, value, now), Abs())
      ensures confirmed <==> slot in old(pending) && old(commands)[old(pending)[slot]].expected.Equal(value)
    {
      if slot !in pending {
        return false;
      }
      var command := commands[pending[slot]];
      if !command.expected.Equal(value) {
        return false;
      }
      ConfirmedIsMoved(Abs(), slot, now);
      commands := commands[pending[slot] := command.(status := Confirmed, outcome := Succeeded, updatedAt := now)];
      pending := pending - {slot};
      EvictDownTo(maxItems);
      return true;
    }

    static lemma ConfirmedIsMoved(s: State, slot: Slot, now: int)
      requires Inv(s) && slot in s.pending
      ensures var c := s.commands[s.pending[slot]];
              Inv(s.(commands := s.commands[s.pending[slot] := c.(status := Confirmed, outcome := Succeeded, updatedAt := now)],
                     pending := s.pending - {slot}))
    {
      MoveKeepsInv(s, s.pending[slot], Confirmed, s.commands[s.pending[slot]].error, now);
    }

    /** Every overdue command times out. */
    method Expire(now: int) returns (expired: set<string>)
      requires Inv(Abs())
      modifies this`commands, this`pending, this`idempotency
      ensures Step(old(Abs()), ExpireOp(now), Abs())
      ensures expired == set id | id in old(commands) && Expires(old(commands)[id], now)
    {
      expired := TimeOutOverdue(now);
      ExpireKeepsInv(old(Abs()), now);
      EvictDownTo(maxItems);
    }

    /** The loop over the commands, before the history is trimmed. */
    method TimeOutOverdue(now: int) returns (expired: set<string>)
      requires Inv(Abs())
      modifies this`commands, this`pending
      ensures Abs() == CommandState.Expire(old(Abs()), now)
      ensures expired == set id | id in old(commands) && Expires(old(commands)[id], now)
    {
      ghost var start := Abs();
      expired := {};
      var left := commands.Keys;
      while left != {}
        invariant left <= start.commands.Keys
        invariant forall id :: id in expired <==> id in start.commands && id !in left && Expires(start.commands[id], now)
        invariant Abs() == PartlyExpired(start, expired, now)
        decreases |left|
      {
        var id :| id in left;
        left := left - {id};
        if Live(commands[id]) && commands[id].deadline <= now {
          OneMoreExpired(start, expired, id, now);
          TimeOut(id, now);
          expired := expired + {id};
        }
      }
      AllExpired(start, expired, now);
    }

    /** Time out one command and free its slot. */
    method TimeOut(id: string, now: int)
      requires id in commands
      modifies this`commands, this`pending
      ensures Abs() == OneTimedOut(old(Abs()), id, now)
    {
      pending := pending - {SlotOf(commands[id])};
      commands := commands[id := commands[id].(status := TimedOut, outcome := Unresolved, updatedAt := now)];
    }

    static ghost function OneTimedOut(s: State, id: string, now: int): State
      requires id in s.commands
    {
      s.(commands := s.commands[id := Resolve(s.commands[id], TimedOut, s.commands[id].error, now)],
         pending := s.pending - {SlotOf(s.commands[id])})
    }

    /** The state with some of its overdue commands timed out. */
    static ghost function PartlyExpired(s: State, expired: set<string>, now: int): State {
      s.(commands := map id | id in s.commands ::
           if id in expired then Resolve(s.commands[id], TimedOut, s.commands[id].error, now) else s.commands[id],
         pending := map k | k in s.pending && s.pending[k] !in expired :: s.pending[k])
    }

    static lemma OneMoreExpired(s: State, expired: set<string>, id: string, now: int)
      requires Inv(s) && id in s.commands && id !in expired && Live(s.commands[id])
      ensures PartlyExpired(s, expired + {id}, now) == OneTimedOut(PartlyExpired(s, expired, now), id, now)
    {
      var part := PartlyExpired(s, expired, now);
      assert PartlyExpired(s, expired + {id}, now).commands == OneTimedOut(part, id, now).commands;
      OneSlotFreed(s, expired, id, now);
    }

    static lemma OneSlotFreed(s: State, expired: set<string>, id: string, now: int)
      requires Inv(s) && id in s.commands && id !in expired && Live(s.commands[id])
      ensures PartlyExpired(s, expired + {id}, now).pending
           == PartlyExpired(s, expired, now).pending - {SlotOf(s.commands[id])}
    {
      OnlyOwnSlot(s, id);
      FreedSlots(s.pending, expired, id, SlotOf(s.commands[id]));
    }

    static lemma FreedSlots(pending: map<Slot, string>, expired: set<string>, id: string, slot: Slot)
      requires forall k :: k in pending ==> (pending[k] == id <==> k == slot)
      ensures (map k | k in pending && pending[k] !in expired + {id} :: pending[k])
           == (map k | k in pending && pending[k] !in expired :: pending[k]) - {slot}
    {
    }

    static lemma AllExpired(s: State, expired: set<string>, now: int)
      requires Inv(s) && expired == set id | id in s.commands && Expires(s.commands[id], now)
      ensures PartlyExpired(s, expired, now) == CommandState.Expire(s, now)
    {
    }

    /** Freeing the slot of a live command removes its own index entry and no other. */
    static lemma OnlyOwnSlot(s: State, id: string)
      requires Inv(s) && id in s.commands && Live(s.commands[id])
      ensures forall k :: k in s.pending ==> (s.pending[k] == id <==> k == SlotOf(s.commands[id]))
    {
    }
  }
}
