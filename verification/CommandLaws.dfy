/**
 What each operation of the tracker does to the commands it holds, said with the fields of the commands
 and nothing else: which command is meant, what becomes of it, and what stays as it was.
 */
module CommandLaws {
  import opened Options
  import opened Values
  import opened CommandState
  import opened CommandTracker

  /** A command that has not ended. */
  predicate Open(s: Status) {
    s == Queued || s == Sent || s == Accepted
  }

  /** A property command for exactly this property has not ended. */
  predicate Waits(s: State, id: string, device: string, endpoint: string, capability: string, property: string) {
    && id in s.commands && s.commands[id].kind == PropertyCommand && Open(s.commands[id].status)
    && s.commands[id].device == device && s.commands[id].endpoint == endpoint
    && s.commands[id].capability == capability && s.commands[id].property == property
  }

  /** The pending index finds the waiting command, and there is no other. */
  lemma WaitsUnderItsSlot(s: State, device: string, endpoint: string, capability: string, property: string)
    requires Inv(s)
    ensures forall id :: Waits(s, id, device, endpoint, capability, property) <==>
              Slot(device, endpoint, capability, property) in s.pending && s.pending[Slot(device, endpoint, capability, property)] == id
    ensures Slot(device, endpoint, capability, property) in s.pending ==>
              Waits(s, s.pending[Slot(device, endpoint, capability, property)], device, endpoint, capability, property)
  {
  }

  /** Of the commands that were there, only those in `changed` differ, if they are retained. */
  ghost predicate OthersStay(s: State, s': State, changed: set<string>) {
    forall id :: id in s.commands && id in s'.commands && id !in changed ==> s'.commands[id] == s.commands[id]
  }

  // ----- confirming -----

  /** An observed value confirms the command that waits for it at this property, and nothing else changes; without one nothing changes. */
  lemma ConfirmingEndsTheWaiting(s: State, device: string, endpoint: string, capability: string, property: string,
                                 value: PropertyValue, now: int, s': State, id: string)
    requires Inv(s) && Bounded(s) && Step(s, ConfirmOp(Slot(device, endpoint, capability, property), value, now), s')
    ensures Waits(s, id, device, endpoint, capability, property) && s.commands[id].expected.Equal(value) ==>
              && (id in s'.commands ==> s'.commands[id] == s.commands[id].(status := Confirmed, outcome := Succeeded, updatedAt := now))
              && (forall other :: !Waits(s', other, device, endpoint, capability, property))
              && s'.commands.Keys <= s.commands.Keys && OthersStay(s, s', {id})
    ensures (forall other :: Waits(s, other, device, endpoint, capability, property) ==> !s.commands[other].expected.Equal(value)) ==> s' == s
  {
    WaitsUnderItsSlot(s, device, endpoint, capability, property);
    if Waits(s, id, device, endpoint, capability, property) && s.commands[id].expected.Equal(value) {
      StepInvariant(s, ConfirmOp(Slot(device, endpoint, capability, property), value, now), s');
      WaitsUnderItsSlot(s', device, endpoint, capability, property);
    }
  }

  // ----- beginning -----

  /** A property command as it starts. */
  function Fresh(id: string, device: string, endpoint: string, capability: string, property: string, value: PropertyValue,
                 correlation: string, now: int, timeout: int): Command {
    Command(id := id, kind := PropertyCommand, device := device, endpoint := endpoint, capability := capability, property := property,
            action := "", expected := value, parameters := map[], key := "", correlation := correlation, coalesced := 0,
            status := Queued, outcome := Pending, error := "", createdAt := now, updatedAt := now, deadline := now + timeout)
  }

  /** A command whose place a newer one takes. */
  function Replaced(c: Command, now: int): Command {
    c.(status := Superseded, outcome := Unresolved, error := "replaced by a newer command", updatedAt := now)
  }

  /** A write for the value that is waited for already joins the waiting command. */
  lemma JoinsTheWaiting(mid: State, w: string, id: string, device: string, endpoint: string, capability: string, property: string,
                        value: PropertyValue, correlation: string, now: int, timeout: int)
    requires Inv(mid) && Waits(mid, w, device, endpoint, capability, property) && mid.commands[w].expected.Equal(value)
    ensures var joined := mid.commands[w].(coalesced := mid.commands[w].coalesced + 1, updatedAt := now);
            Begin(mid, PropertyRequest(id, Slot(device, endpoint, capability, property), value, correlation, now, timeout))
              == Begun(mid.(commands := mid.commands[w := joined]), joined, None, true)
  {
    WaitsUnderItsSlot(mid, device, endpoint, capability, property);
  }

  /** A write for another value supersedes the waiting command and waits in its place. */
  lemma ReplacesTheWaiting(mid: State, w: string, id: string, device: string, endpoint: string, capability: string, property: string,
                           value: PropertyValue, correlation: string, now: int, timeout: int)
    requires Inv(mid) && Waits(mid, w, device, endpoint, capability, property) && !mid.commands[w].expected.Equal(value)
    ensures var r := Begin(mid, PropertyRequest(id, Slot(device, endpoint, capability, property), value, correlation, now, timeout));
            var fresh' := Fresh(id, device, endpoint, capability, property, value, correlation, now, timeout);
            && r.command == fresh' && r.superseded == Some(Replaced(mid.commands[w], now)) && !r.joined
            && r.state.commands == mid.commands[w := Replaced(mid.commands[w], now)][id := fresh'] && r.state.idempotency == mid.idempotency && r.state.maxItems == mid.maxItems
  {
    WaitsUnderItsSlot(mid, device, endpoint, capability, property);
  }

  /** Where nothing waits, a write starts a fresh command, and nothing else changes. */
  lemma StartsFresh(mid: State, id: string, device: string, endpoint: string, capability: string, property: string,
                    value: PropertyValue, correlation: string, now: int, timeout: int)
    requires Inv(mid) && forall w :: !Waits(mid, w, device, endpoint, capability, property)
    ensures var r := Begin(mid, PropertyRequest(id, Slot(device, endpoint, capability, property), value, correlation, now, timeout));
            var fresh' := Fresh(id, device, endpoint, capability, property, value, correlation, now, timeout);
            && r.command == fresh' && r.superseded == None && !r.joined
            && r.state.commands == mid.commands[id := fresh'] && r.state.idempotency == mid.idempotency && r.state.maxItems == mid.maxItems
  {
    WaitsUnderItsSlot(mid, device, endpoint, capability, property);
  }

  /** What waits at the property before an operation, if anything does. */
  ghost predicate WaitingIs(s: State, w: Option<string>, device: string, endpoint: string, capability: string, property: string) {
    forall id :: Waits(s, id, device, endpoint, capability, property) <==> w == Some(id)
  }

  lemma FindWaiting(s: State, device: string, endpoint: string, capability: string, property: string) returns (w: Option<string>)
    requires Inv(s)
    ensures WaitingIs(s, w, device, endpoint, capability, property)
  {
    WaitsUnderItsSlot(s, device, endpoint, capability, property);
    var slot := Slot(device, endpoint, capability, property);
    w := if slot in s.pending then Some(s.pending[slot]) else None;
  }

  /** Commands that wait are never evicted. */
  lemma EvictionKeepsWaiting(s: State, limit: int, s': State, w: Option<string>, device: string, endpoint: string, capability: string, property: string)
    requires Inv(s) && Evicts(s, limit, s') && WaitingIs(s, w, device, endpoint, capability, property)
    ensures WaitingIs(s', w, device, endpoint, capability, property)
  {
  }

  /** Eviction changes no command that it keeps, and keeps what is open. */
  lemma EvictionKeepsCommands(s: State, limit: int, s': State, w: Option<string>)
    requires Evicts(s, limit, s')
    ensures s'.commands.Keys <= s.commands.Keys && OthersStay(s, s', {})
    ensures w.Some? && w.value in s.commands && Open(s.commands[w.value].status) ==>
              w.value in s'.commands && s'.commands[w.value] == s.commands[w.value]
  {
  }

  lemma OneWaits(s: State, a: string, device: string, endpoint: string, capability: string, property: string)
    requires Inv(s) && Waits(s, a, device, endpoint, capability, property)
    ensures WaitingIs(s, Some(a), device, endpoint, capability, property)
  {
    WaitsUnderItsSlot(s, device, endpoint, capability, property);
  }

  /** What became of the commands when a write was answered with command a: joined, or started in the place of w. */
  ghost predicate Answered(s: State, s': State, w: Option<string>, joins: bool, a: string, command: Command, now: int) {
    && a in s'.commands && s'.commands[a] == command
    && if joins then w == Some(a) && OthersStay(s, s', {a}) && s'.commands.Keys <= s.commands.Keys
       else
         && s'.commands.Keys <= s.commands.Keys + {a}
         && if w.None? then OthersStay(s, s', {})
            else
              && OthersStay(s, s', {w.value}) && w.value in s.commands && w.value in s'.commands
              && s'.commands[w.value] == Replaced(s.commands[w.value], now)
  }

  lemma AnsweredAfterEviction(s: State, mid: State, s': State, w: Option<string>, joins: bool, a: string, command: Command, now: int)
    requires mid.commands.Keys <= s.commands.Keys && OthersStay(s, mid, {}) && Answered(mid, s', w, joins, a, command, now)
    requires !joins ==> a !in s.commands
    ensures Answered(s, s', w, joins, a, command, now)
  {
  }

  /**
   Beginning a write leaves one command waiting at the property, and it asks for the value: the one that
   waited for it already, now joined once more; or else a fresh one, and then the one that waited is superseded.
   */
  lemma BeginningAnswers(s: State, id: string, device: string, endpoint: string, capability: string, property: string, value: PropertyValue,
                         correlation: string, now: int, timeout: int, s': State, w: Option<string>) returns (a: string)
    requires Inv(s) && Bounded(s) && WaitingIs(s, w, device, endpoint, capability, property) && property != ""
    requires Step(s, BeginPropertyOp(PropertyRequest(id, Slot(device, endpoint, capability, property), value, correlation, now, timeout)), s')
    ensures WaitingIs(s', Some(a), device, endpoint, capability, property)
    ensures if w.Some? && s.commands[w.value].expected.Equal(value) then
              Answered(s, s', w, true, a, s.commands[w.value].(coalesced := s.commands[w.value].coalesced + 1, updatedAt := now), now)
            else a == id && Answered(s, s', w, false, id, Fresh(id, device, endpoint, capability, property, value, correlation, now, timeout), now)
  {
    var mid := BeginsFrom(s, PropertyRequest(id, Slot(device, endpoint, capability, property), value, correlation, now, timeout), s');
    a := AnsweredFrom(s, mid, id, device, endpoint, capability, property, value, correlation, now, timeout, s', w);
  }

  lemma BeginsFrom(s: State, c: Command, s': State) returns (mid: State)
    requires BeginsProperty(s, c, s')
    ensures Evicts(s, s.maxItems - 1, mid) && Inv(mid) && s' == Begin(mid, c).state
  {
    mid :| Evicts(s, s.maxItems - 1, mid) && Inv(mid) && s' == Begin(mid, c).state;
  }

  lemma AnsweredFrom(s: State, mid: State, id: string, device: string, endpoint: string, capability: string, property: string, value: PropertyValue,
                     correlation: string, now: int, timeout: int, s': State, w: Option<string>) returns (a: string)
    requires Inv(s) && WaitingIs(s, w, device, endpoint, capability, property) && id !in s.commands && property != ""
    requires Evicts(s, s.maxItems - 1, mid) && Inv(mid)
    requires s' == Begin(mid, PropertyRequest(id, Slot(device, endpoint, capability, property), value, correlation, now, timeout)).state
    ensures WaitingIs(s', Some(a), device, endpoint, capability, property)
    ensures if w.Some? && s.commands[w.value].expected.Equal(value) then
              Answered(s, s', w, true, a, s.commands[w.value].(coalesced := s.commands[w.value].coalesced + 1, updatedAt := now), now)
            else a == id && Answered(s, s', w, false, id, Fresh(id, device, endpoint, capability, property, value, correlation, now, timeout), now)
  {
    EvictionKeepsWaiting(s, s.maxItems - 1, mid, w, device, endpoint, capability, property);
    EvictionKeepsCommands(s, s.maxItems - 1, mid, w);
    a := AnsweredAt(mid, id, device, endpoint, capability, property, value, correlation, now, timeout, w);
    AnsweredAfterEviction(s, mid, s', w, w.Some? && s.commands[w.value].expected.Equal(value), a, s'.commands[a], now);
  }

  lemma AnsweredAt(mid: State, id: string, device: string, endpoint: string, capability: string, property: string, value: PropertyValue,
                   correlation: string, now: int, timeout: int, w: Option<string>) returns (a: string)
    requires Inv(mid) && WaitingIs(mid, w, device, endpoint, capability, property) && id !in mid.commands && property != ""
    ensures var s' := Begin(mid, PropertyRequest(id, Slot(device, endpoint, capability, property), value, correlation, now, timeout)).state;
            && WaitingIs(s', Some(a), device, endpoint, capability, property)
            && if w.Some? && mid.commands[w.value].expected.Equal(value) then
                 Answered(mid, s', w, true, a, mid.commands[w.value].(coalesced := mid.commands[w.value].coalesced + 1, updatedAt := now), now)
               else a == id && Answered(mid, s', w, false, id, Fresh(id, device, endpoint, capability, property, value, correlation, now, timeout), now)
  {
    var c := PropertyRequest(id, Slot(device, endpoint, capability, property), value, correlation, now, timeout);
    BeginKeepsInv(mid, c);
    if w.None? {
      StartsFresh(mid, id, device, endpoint, capability, property, value, correlation, now, timeout);
      a := id;
    } else {
      assert Waits(mid, w.value, device, endpoint, capability, property);
      if mid.commands[w.value].expected.Equal(value) {
        JoinsTheWaiting(mid, w.value, id, device, endpoint, capability, property, value, correlation, now, timeout);
        a := w.value;
      } else {
        ReplacesTheWaiting(mid, w.value, id, device, endpoint, capability, property, value, correlation, now, timeout);
        a := id;
      }
    }
    OneWaits(Begin(mid, c).state, a, device, endpoint, capability, property);
  }

  // ----- status changes -----

  function OutcomeOf(status: Status): Outcome {
    match status
    case Queued => Pending
    case Sent => Pending
    case Accepted => Pending
    case Confirmed => Succeeded
    case Rejected => Failed
    case TimedOut => Unresolved
    case Superseded => Unresolved
  }

  /** If it is retained, the command has become c; nothing else has changed, but for what was dropped. */
  ghost predicate Becomes(s: State, s': State, id: string, c: Command) {
    s'.commands.Keys <= s.commands.Keys && OthersStay(s, s', {id}) && (id in s'.commands ==> s'.commands[id] == c)
  }

  /** A command changes, and then the history is trimmed. */
  lemma TrimmedAfterChange(s: State, id: string, c: Command, middle: State, limit: int, s': State)
    requires id in s.commands && middle.commands == s.commands[id := c] && Evicts(middle, limit, s')
    ensures Becomes(s, s', id, c)
  {
  }

  /** An open command after a change of its status. */
  function Reported(c: Command, status: Status, error: string, now: int): Command {
    c.(status := status, outcome := OutcomeOf(status), error := error, updatedAt := now)
  }

  lemma MovingSets(s: State, id: string, status: Status, error: string, now: int, s': State)
    requires Moves(s, id, status, error, now, s')
    ensures id !in s.commands || !Open(s.commands[id].status) ==> s' == s
    ensures id in s.commands && Open(s.commands[id].status) ==>
              Becomes(s, s', id, Reported(s.commands[id], status, error, now)) && (Open(status) ==> s'.commands.Keys == s.commands.Keys)
  {
    if id in s.commands && Open(s.commands[id].status) && !Open(status) {
      TrimmedAfterChange(s, id, Reported(s.commands[id], status, error, now), Move(s, id, status, error, now), s.maxItems, s');
    }
  }

  lemma MovedWaits(s: State, id: string, status: Status, error: string, now: int, s': State)
    requires Inv(s) && Bounded(s) && Moves(s, id, status, error, now, s')
    requires id in s.commands && Open(s.commands[id].status) && s.commands[id].kind == PropertyCommand
    ensures var c := s.commands[id];
            WaitingIs(s', if Open(status) then Some(id) else None, c.device, c.endpoint, c.capability, c.property)
  {
    var c := s.commands[id];
    MoveIsSound(s, id, status, error, now, s');
    OneWaits(s, id, c.device, c.endpoint, c.capability, c.property);
    MovingSets(s, id, status, error, now, s');
    WaitsAfter(s, s', id, Reported(c, status, error, now));
    if Open(status) {
      OneWaits(s', id, c.device, c.endpoint, c.capability, c.property);
    }
  }

  /** Where one command waited before a change of its status, it waits afterwards or nothing does. */
  lemma WaitsAfter(s: State, s': State, id: string, c: Command)
    requires id in s.commands && WaitingIs(s, Some(id), c.device, c.endpoint, c.capability, c.property) && Becomes(s, s', id, c)
    ensures forall other :: Waits(s', other, c.device, c.endpoint, c.capability, c.property) ==> other == id && Open(c.status)
  {
    forall other | Waits(s', other, c.device, c.endpoint, c.capability, c.property)
      ensures other == id && Open(c.status)
    {
      if other != id { assert Waits(s, other, c.device, c.endpoint, c.capability, c.property); }
    }
  }

  /** A status reported for a command that is open becomes its status; nothing else changes, and an ended command stays. */
  lemma TransitionSets(s: State, id: string, status: Status, message: string, now: int, s': State)
    requires Inv(s) && Bounded(s) && Step(s, TransitionOp(id, status, message, now), s')
    ensures id !in s.commands || !Open(s.commands[id].status) ==> s' == s
    ensures id in s.commands && Open(s.commands[id].status) ==>
              var c := s.commands[id];
              && Becomes(s, s', id, Reported(c, status, message, now)) && (Open(status) ==> s'.commands.Keys == s.commands.Keys)
              && (c.kind == PropertyCommand ==> WaitingIs(s', if Open(status) then Some(id) else None, c.device, c.endpoint, c.capability, c.property))
  {
    MovingSets(s, id, status, message, now, s');
    if id in s.commands && Open(s.commands[id].status) && s.commands[id].kind == PropertyCommand {
      MovedWaits(s, id, status, message, now, s');
    }
  }

  /** A replaced command ends superseded, with the message it is given or the usual one. */
  lemma SupersedingSets(s: State, id: string, message: string, now: int, s': State)
    requires Inv(s) && Bounded(s) && Step(s, SupersedeOp(id, message, now), s')
    ensures id !in s.commands || !Open(s.commands[id].status) ==> s' == s
    ensures id in s.commands && Open(s.commands[id].status) ==>
              var c := s.commands[id];
              && Becomes(s, s', id, Reported(c, Superseded, if message == "" then "replaced by a newer command" else message, now))
              && (c.kind == PropertyCommand ==> WaitingIs(s', None, c.device, c.endpoint, c.capability, c.property))
  {
    var text := if message == "" then "replaced by a newer command" else message;
    assert Moves(s, id, Superseded, text, now, s');
    MovingSets(s, id, Superseded, text, now, s');
    if id in s.commands && Open(s.commands[id].status) && s.commands[id].kind == PropertyCommand {
      MovedWaits(s, id, Superseded, text, now, s');
    }
  }

  // ----- operations in pairs -----

  /** After beginning a write, the one command that waits asks for the value. */
  lemma BegunAsksForIt(s: State, id: string, device: string, endpoint: string, capability: string, property: string, value: PropertyValue,
                       correlation: string, now: int, timeout: int, s1: State) returns (a: string)
    requires Inv(s) && Bounded(s) && property != ""
    requires Step(s, BeginPropertyOp(PropertyRequest(id, Slot(device, endpoint, capability, property), value, correlation, now, timeout)), s1)
    ensures WaitingIs(s1, Some(a), device, endpoint, capability, property) && a in s1.commands
    ensures s1.commands[a].expected == value || s1.commands[a].expected.Equal(value)
  {
    var w := FindWaiting(s, device, endpoint, capability, property);
    a := BeginningAnswers(s, id, device, endpoint, capability, property, value, correlation, now, timeout, s1, w);
  }

  lemma ConfirmingTheOne(s: State, a: string, device: string, endpoint: string, capability: string, property: string, value: PropertyValue,
                         now: int, s': State)
    requires Inv(s) && Bounded(s) && Step(s, ConfirmOp(Slot(device, endpoint, capability, property), value, now), s')
    requires WaitingIs(s, Some(a), device, endpoint, capability, property) && a in s.commands
    ensures s.commands[a].expected.Equal(value) ==>
              && WaitingIs(s', None, device, endpoint, capability, property) && OthersStay(s, s', {a})
              && (a in s'.commands ==> s'.commands[a] == s.commands[a].(status := Confirmed, outcome := Succeeded, updatedAt := now))
    ensures !s.commands[a].expected.Equal(value) ==> s' == s
  {
    assert Waits(s, a, device, endpoint, capability, property);
    ConfirmingEndsTheWaiting(s, device, endpoint, capability, property, value, now, s', a);
  }

  /**
   Begin a write and observe the value at the same property: the command that was answered is confirmed, and
   nothing waits there any more; exactly a value without the payload of its type confirms nothing.
   */
  lemma BegunThenConfirmed(s: State, id: string, device: string, endpoint: string, capability: string, property: string, value: PropertyValue,
                           correlation: string, now: int, timeout: int, s1: State, later: int, s2: State) returns (a: string)
    requires Inv(s) && Bounded(s) && property != ""
    requires Step(s, BeginPropertyOp(PropertyRequest(id, Slot(device, endpoint, capability, property), value, correlation, now, timeout)), s1)
    requires Step(s1, ConfirmOp(Slot(device, endpoint, capability, property), value, later), s2)
    ensures WaitingIs(s1, Some(a), device, endpoint, capability, property) && a in s1.commands
    ensures value.Equal(value) ==>
              && WaitingIs(s2, None, device, endpoint, capability, property) && OthersStay(s1, s2, {a})
              && (a in s2.commands ==> s2.commands[a] == s1.commands[a].(status := Confirmed, outcome := Succeeded, updatedAt := later))
    ensures !value.Equal(value) ==> s2 == s1
  {
    StepInvariant(s, BeginPropertyOp(PropertyRequest(id, Slot(device, endpoint, capability, property), value, correlation, now, timeout)), s1);
    a := BegunAsksForIt(s, id, device, endpoint, capability, property, value, correlation, now, timeout, s1);
    AsksAlike(s1.commands[a].expected, value);
    ConfirmingTheOne(s1, a, device, endpoint, capability, property, value, later, s2);
  }

  lemma AsksAlike(expected: PropertyValue, value: PropertyValue)
    requires expected == value || expected.Equal(value)
    ensures expected.Equal(value) <==> value.Equal(value)
  {
  }

  /** Begin a write and report a status for the command that was answered: it has that status, and waits on if it is open. */
  lemma BegunThenMoved(s: State, id: string, device: string, endpoint: string, capability: string, property: string, value: PropertyValue,
                       correlation: string, now: int, timeout: int, s1: State, a: string, status: Status, message: string, later: int, s2: State)
    requires Inv(s) && Bounded(s) && property != ""
    requires Step(s, BeginPropertyOp(PropertyRequest(id, Slot(device, endpoint, capability, property), value, correlation, now, timeout)), s1)
    requires Waits(s1, a, device, endpoint, capability, property) && Step(s1, TransitionOp(a, status, message, later), s2)
    ensures WaitingIs(s2, if Open(status) then Some(a) else None, device, endpoint, capability, property) && OthersStay(s1, s2, {a})
    ensures Open(status) ==> a in s2.commands
    ensures a in s2.commands ==> s2.commands[a] == Reported(s1.commands[a], status, message, later)
  {
    StepInvariant(s, BeginPropertyOp(PropertyRequest(id, Slot(device, endpoint, capability, property), value, correlation, now, timeout)), s1);
    TransitionSets(s1, a, status, message, later, s2);
  }

  /** Begin a write and replace the command that was answered: it is superseded, and nothing waits any more. */
  lemma BegunThenSuperseded(s: State, id: string, device: string, endpoint: string, capability: string, property: string, value: PropertyValue,
                            correlation: string, now: int, timeout: int, s1: State, a: string, message: string, later: int, s2: State)
    requires Inv(s) && Bounded(s) && property != ""
    requires Step(s, BeginPropertyOp(PropertyRequest(id, Slot(device, endpoint, capability, property), value, correlation, now, timeout)), s1)
    requires Waits(s1, a, device, endpoint, capability, property) && Step(s1, SupersedeOp(a, message, later), s2)
    ensures WaitingIs(s2, None, device, endpoint, capability, property) && OthersStay(s1, s2, {a})
    ensures a in s2.commands ==> s2.commands[a].status == Superseded && s2.commands[a].outcome == Unresolved
  {
    StepInvariant(s, BeginPropertyOp(PropertyRequest(id, Slot(device, endpoint, capability, property), value, correlation, now, timeout)), s1);
    SupersedingSets(s1, a, message, later, s2);
  }

  // ----- the other operations -----

  /** A retained action command with this scope. */
  predicate IsKeyed(s: State, id: string, device: string, endpoint: string, capability: string, action: string, key: string) {
    && id in s.commands && s.commands[id].kind == ActionCommand
    && s.commands[id].device == device && s.commands[id].endpoint == endpoint && s.commands[id].capability == capability
    && s.commands[id].action == action && s.commands[id].key == key
  }

  /** A key leads to the one retained action that was given it. */
  lemma KeyedUnderItsScope(s: State, device: string, endpoint: string, capability: string, action: string, key: string)
    requires Inv(s) && key != ""
    ensures forall id :: IsKeyed(s, id, device, endpoint, capability, action, key) <==>
              Scope(device, endpoint, capability, action, key) in s.idempotency && s.idempotency[Scope(device, endpoint, capability, action, key)] == id
  {
  }

  /** An action command as it starts. */
  function FreshAction(id: string, device: string, endpoint: string, capability: string, action: string, key: string,
                       parameters: map<string, PropertyValue>, correlation: string, now: int, timeout: int): Command {
    Command(id := id, kind := ActionCommand, device := device, endpoint := endpoint, capability := capability,
            property := "", action := action, expected := NO_VALUE, parameters := parameters, key := key, correlation := correlation,
            coalesced := 0, status := Queued, outcome := Pending, error := "", createdAt := now, updatedAt := now, deadline := now + timeout)
  }

  /** An action starts as a fresh command under its key, unless a retained action has that key; then nothing changes. */
  lemma ActionStarts(s: State, id: string, device: string, endpoint: string, capability: string, action: string, key: string,
                     parameters: map<string, PropertyValue>, correlation: string, now: int, timeout: int, s': State)
    requires Inv(s) && Bounded(s)
    requires Step(s, BeginActionOp(ActionRequest(id, Scope(device, endpoint, capability, action, key), parameters, correlation, now, timeout)), s')
    ensures if key != "" && exists o :: IsKeyed(s, o, device, endpoint, capability, action, key) then s' == s
            else
              && OthersStay(s, s', {}) && s'.commands.Keys <= s.commands.Keys + {id} && id in s'.commands
              && s'.commands[id] == FreshAction(id, device, endpoint, capability, action, key, parameters, correlation, now, timeout)
    ensures key != "" ==> exists o :: IsKeyed(s', o, device, endpoint, capability, action, key)
  {
    var c := ActionRequest(id, Scope(device, endpoint, capability, action, key), parameters, correlation, now, timeout);
    if key != "" {
      KeyedUnderItsScope(s, device, endpoint, capability, action, key);
    }
    if c.key != "" && ScopeOf(c) in s.idempotency {
      assert IsKeyed(s, s.idempotency[ScopeOf(c)], device, endpoint, capability, action, key);
    } else {
      var mid :| Evicts(s, s.maxItems - 1, mid) && s' == BeginAction(mid, c);
      StoredAfterEviction(s, mid, s', c);
      assert IsKeyed(s', id, device, endpoint, capability, action, key);
    }
  }

  lemma StoredAfterEviction(s: State, mid: State, s': State, c: Command)
    requires c.id !in s.commands && Evicts(s, s.maxItems - 1, mid) && s' == BeginAction(mid, c)
    ensures OthersStay(s, s', {}) && s'.commands.Keys <= s.commands.Keys + {c.id} && c.id in s'.commands && s'.commands[c.id] == c
  {
  }

  /** Well-formed parameters agree exactly if they are the same. */
  lemma ParametersAgree(a: map<string, PropertyValue>, b: map<string, PropertyValue>)
    requires forall k :: k in a ==> a[k].HasSinglePayload()
    requires forall k :: k in b ==> b[k].HasSinglePayload()
    ensures SameParameters(a, b) <==> a == b
  {
    forall k | k in a && k in b
      ensures a[k].Equal(b[k]) <==> a[k] == b[k]
    {
      EqualIsSame(a[k], b[k], a[k].kind);
    }
    if SameParameters(a, b) {
      SameSize(a.Keys, b.Keys);
    }
  }

  lemma SameSize(a: set<string>, b: set<string>)
    requires a <= b
    ensures |b| == |a| + |b - a|
    ensures |b| <= |a| ==> a == b
  {
    assert b == a + (b - a);
  }

  /** Adding joins to a retained command changes its count and nothing else. */
  lemma AddingCounts(s: State, id: string, count: nat, now: int, s': State)
    requires Step(s, AddCoalescedOp(id, count, now), s')
    ensures count == 0 || id !in s.commands ==> s' == s
    ensures count > 0 && id in s.commands ==>
              s' == s.(commands := s.commands[id := s.commands[id].(coalesced := s.commands[id].coalesced + count, updatedAt := now)])
  {
  }

  /** Exactly the open commands whose deadline has come time out. */
  lemma ExpiringTimesOut(s: State, now: int, s': State, id: string)
    requires Inv(s) && Step(s, ExpireOp(now), s') && id in s.commands
    ensures var c := s.commands[id];
            var overdue := Open(c.status) && c.deadline <= now;
            && (id in s'.commands ==> s'.commands[id] == if overdue then c.(status := TimedOut, outcome := Unresolved, updatedAt := now) else c)
            && (Open(c.status) && !overdue ==> id in s'.commands)
            && s'.commands.Keys <= s.commands.Keys
  {
    Expired(s, now, id);
    EvictionKeepsCommands(Expire(s, now), s.maxItems, s', Some(id));
  }

  lemma Expired(s: State, now: int, id: string)
    requires Inv(s) && id in s.commands
    ensures Expire(s, now).commands.Keys == s.commands.Keys
    ensures var c := s.commands[id];
            Expire(s, now).commands[id] == if Open(c.status) && c.deadline <= now then c.(status := TimedOut, outcome := Unresolved, updatedAt := now) else c
  {
  }

  /** The limit is at least one; down to it, only ended commands go. */
  lemma LimitingKeeps(s: State, limit: int, s': State)
    requires Step(s, SetMaxItemsOp(limit), s')
    ensures s'.maxItems == (if limit >= 1 then limit else 1) && s'.commands.Keys <= s.commands.Keys && OthersStay(s, s', {})
    ensures |s'.commands| <= s'.maxItems || forall id :: id in s'.commands ==> Open(s'.commands[id].status)
    ensures |s.commands| <= s'.maxItems ==> s'.commands == s.commands
  {
    SameSize(s'.commands.Keys, s.commands.Keys);
    forall id | id in s'.commands && !Open(s'.commands[id].status)
      ensures id in Terminals(s'.commands)
    {
    }
  }

  /** The operation is the end of this command. */
  predicate Ends(op: Op, s: State, id: string)
    requires id in s.commands
  {
    var c := s.commands[id];
    match op
    case SupersedeOp(i, _, _) => i == id
    case TransitionOp(i, status, _, _) => i == id && !Open(status)
    case ConfirmOp(slot, value, _) => Waits(s, id, slot.device, slot.endpoint, slot.capability, slot.property) && c.expected.Equal(value)
    case ExpireOp(now) => c.deadline <= now
    case _ => false
  }

  lemma DroppedByEviction(middle: State, limit: int, s': State, r: string, k: string)
    requires Evicts(middle, limit, s') && r in middle.commands && r !in s'.commands
    ensures !Open(middle.commands[r].status)
    ensures k in middle.commands && k in s'.commands && !Open(middle.commands[k].status) ==> middle.commands[r].createdAt <= middle.commands[k].createdAt
  {
  }

  lemma DroppedByMove(s: State, id: string, status: Status, error: string, now: int, s': State, r: string, k: string)
    requires Moves(s, id, status, error, now, s') && r in s.commands && r !in s'.commands
    ensures Open(s.commands[r].status) ==> id == r && !Open(status)
    ensures k in s.commands && k in s'.commands && !Open(s.commands[k].status) ==> s.commands[r].createdAt <= s.commands[k].createdAt
  {
    MovingSets(s, id, status, error, now, s');
    DroppedByEviction(Move(s, id, status, error, now), s.maxItems, s', r, k);
  }

  /** Making room for a new command drops what eviction drops. */
  lemma DroppedByPruning(s: State, mid: State, s': State, id: string, r: string, k: string)
    requires Evicts(s, s.maxItems - 1, mid) && id !in s.commands && mid.commands.Keys <= s'.commands.Keys <= mid.commands.Keys + {id}
    requires r in s.commands && r !in s'.commands
    ensures !Open(s.commands[r].status)
    ensures k in s.commands && k in s'.commands && !Open(s.commands[k].status) ==> s.commands[r].createdAt <= s.commands[k].createdAt
  {
    DroppedByEviction(s, s.maxItems - 1, mid, r, k);
  }

  lemma BeginPrunes(s: State, c: Command, s': State) returns (mid: State)
    requires BeginsProperty(s, c, s')
    ensures Evicts(s, s.maxItems - 1, mid) && mid.commands.Keys <= s'.commands.Keys <= mid.commands.Keys + {c.id}
  {
    mid :| Evicts(s, s.maxItems - 1, mid) && Inv(mid) && s' == Begin(mid, c).state;
    BeginKeepsCommands(mid, c);
  }

  lemma BeginKeepsCommands(mid: State, c: Command)
    requires Inv(mid)
    ensures mid.commands.Keys <= Begin(mid, c).state.commands.Keys <= mid.commands.Keys + {c.id}
  {
  }

  lemma ActionPrunes(s: State, c: Command, s': State) returns (mid: State)
    requires BeginsAction(s, c, s') && !(c.key != "" && ScopeOf(c) in s.idempotency)
    ensures Evicts(s, s.maxItems - 1, mid) && mid.commands.Keys <= s'.commands.Keys <= mid.commands.Keys + {c.id}
  {
    mid :| Evicts(s, s.maxItems - 1, mid) && s' == BeginAction(mid, c);
  }

  lemma DroppedByConfirming(s: State, slot: Slot, value: PropertyValue, now: int, s': State, r: string, k: string)
    requires Inv(s) && Confirms(s, slot, value, now, s') && r in s.commands && r !in s'.commands
    ensures Open(s.commands[r].status) ==> Ends(ConfirmOp(slot, value, now), s, r)
    ensures k in s.commands && k in s'.commands && !Open(s.commands[k].status) ==> s.commands[r].createdAt <= s.commands[k].createdAt
  {
    WaitsUnderItsSlot(s, slot.device, slot.endpoint, slot.capability, slot.property);
    var c := s.commands[s.pending[slot]];
    DroppedByEviction(s.(commands := s.commands[s.pending[slot] := Resolve(c, Confirmed, c.error, now)], pending := Without(s.pending, slot)),
                      s.maxItems, s', r, k);
  }

  lemma DroppedByExpiring(s: State, now: int, s': State, r: string, k: string)
    requires Inv(s) && Evicts(Expire(s, now), s.maxItems, s') && r in s.commands && r !in s'.commands
    ensures Open(s.commands[r].status) ==> s.commands[r].deadline <= now
    ensures k in s.commands && k in s'.commands && !Open(s.commands[k].status) ==> s.commands[r].createdAt <= s.commands[k].createdAt
  {
    Expired(s, now, r);
    if k in s.commands { Expired(s, now, k); }
    DroppedByEviction(Expire(s, now), s.maxItems, s', r, k);
  }

  /** Whatever an operation drops has ended, and is no newer than any ended command it keeps. */
  lemma OnlyOldEndedCommandsGo(s: State, op: Op, s': State, r: string, k: string)
    requires Inv(s) && Step(s, op, s') && r in s.commands && r !in s'.commands
    ensures Open(s.commands[r].status) ==> Ends(op, s, r)
    ensures k in s.commands && k in s'.commands && !Open(s.commands[k].status) ==> s.commands[r].createdAt <= s.commands[k].createdAt
  {
    match op
    case BeginPropertyOp(c) =>
      var mid := BeginPrunes(s, c, s');
      DroppedByPruning(s, mid, s', c.id, r, k);
    case BeginActionOp(c) =>
      var mid := ActionPrunes(s, c, s');
      DroppedByPruning(s, mid, s', c.id, r, k);
    case AddCoalescedOp(_, _, _) =>
    case SupersedeOp(id, message, now) => DroppedByMove(s, id, Superseded, if message == "" then REPLACED else message, now, s', r, k);
    case TransitionOp(id, status, message, now) => DroppedByMove(s, id, status, message, now, s', r, k);
    case ConfirmOp(slot, value, now) => DroppedByConfirming(s, slot, value, now, s', r, k);
    case ExpireOp(now) => DroppedByExpiring(s, now, s', r, k);
    case SetMaxItemsOp(limit) => DroppedByEviction(s.(maxItems := if limit < 1 then 1 else limit), if limit < 1 then 1 else limit, s', r, k);
  }
}
