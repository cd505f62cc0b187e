/**
 The step machine of shared writes beside the tracker itself: its counts are the tracker's, at every
 point of every run of the two together.
 */
module TrackedWrites {
  import opened Options
  import opened Values
  import opened PropertyOperations
  import C = CommandState

  // ----- the counts are the tracker's -----

  function CountsOf(t: C.State): map<string, nat> {
    map id | id in t.commands :: t.commands[id].coalesced
  }

  predicate OnlyDrops(counts: map<string, nat>, counts': map<string, nat>) {
    forall id :: id in counts' ==> id in counts && counts'[id] == counts[id]
  }

  lemma CreditIsTheTrackers(t: C.State, id: string, amount: nat, now: int, t': C.State)
    requires C.Step(t, C.AddCoalescedOp(id, amount, now), t')
    ensures CountsOf(t') == Added(CountsOf(t), id, amount)
  {
  }

  lemma EvictionOnlyDrops(t: C.State, limit: int, t': C.State)
    requires C.Evicts(t, limit, t')
    ensures OnlyDrops(CountsOf(t), CountsOf(t'))
  {
  }

  /** After evicting, starting a property command adds one to the command it joins, or a new count of nought. */
  lemma JoiningCountsOne(t: C.State, c: C.Command)
    requires C.Inv(t) && C.Begin(t, c).joined
    ensures C.SlotOf(c) in t.pending
    ensures var id := t.pending[C.SlotOf(c)];
            id in t.commands && CountsOf(C.Begin(t, c).state) == CountsOf(t)[id := t.commands[id].coalesced + 1]
  {
  }

  lemma StartingCountsNone(t: C.State, c: C.Command)
    requires C.Inv(t) && C.NewProperty(t, c) && c.coalesced == 0 && !C.Begin(t, c).joined
    ensures CountsOf(C.Begin(t, c).state) == CountsOf(t)[c.id := 0]
  {
    var k := C.SlotOf(c);
    if k in t.pending && !C.Terminal(t.commands[t.pending[k]].status) {
      ReplacingKeepsCounts(t, t.pending[k], c.createdAt, c);
    }
  }

  lemma ReplacingKeepsCounts(t: C.State, id: string, now: int, c: C.Command)
    requires id in t.commands && id != c.id && c.coalesced == 0
    ensures var replaced := C.Resolve(t.commands[id], C.Superseded, C.REPLACED, now);
            CountsOf(t.(commands := t.commands[id := replaced][c.id := c])) == CountsOf(t)[c.id := 0]
  {
  }

  lemma MoveOnlyDrops(t: C.State, id: string, status: C.Status, error: string, now: int, t': C.State)
    requires C.Moves(t, id, status, error, now, t')
    ensures OnlyDrops(CountsOf(t), CountsOf(t'))
  {
  }

  lemma ConfirmOnlyDrops(t: C.State, slot: C.Slot, value: PropertyValue, now: int, t': C.State)
    requires C.Confirms(t, slot, value, now, t')
    ensures OnlyDrops(CountsOf(t), CountsOf(t'))
  {
  }

  /** No other operation of the tracker changes a property command's count; at most it evicts commands. */
  lemma OtherTrackerStepsKeepCounts(t: C.State, op: C.Op, t': C.State)
    requires C.Step(t, op, t') && !op.BeginPropertyOp? && !op.BeginActionOp? && !op.AddCoalescedOp?
    ensures OnlyDrops(CountsOf(t), CountsOf(t'))
  {
    if op.SupersedeOp? {
      MoveOnlyDrops(t, op.id, C.Superseded, if op.message == "" then C.REPLACED else op.message, op.now, t');
    } else if op.TransitionOp? {
      MoveOnlyDrops(t, op.id, op.status, op.message, op.now, t');
    } else if op.ConfirmOp? {
      ConfirmOnlyDrops(t, op.slot, op.value, op.now, t');
    } else if op.ExpireOp? {
      EvictionOnlyDrops(C.Expire(t, op.now), t.maxItems, t');
    }
  }

  lemma ActionCountsNone(t: C.State, c: C.Command)
    requires c.id !in t.commands && c.coalesced == 0
    ensures CountsOf(C.BeginAction(t, c)) == CountsOf(t)[c.id := 0]
  {
  }

  // ----- following the tracker -----

  /** The thread is where the source calls the operation from, and new ids are fresh. */
  predicate CanAnswer(s: State, i: nat, op: C.Op) {
    && i < |s.threads|
    && match op
       case BeginPropertyOp(c) => s.threads[i].Owning? && c.id != "" && c.id !in s.used && c.coalesced == 0
       case BeginActionOp(c) => c.id != "" && c.id !in s.used && c.coalesced == 0
       case AddCoalescedOp(id, amount, _) => s.threads[i].Crediting? && s.threads[i].id == id && s.threads[i].amount == amount
       case _ => true
  }

  /** Forget the counts of what was evicted. */
  function Keeping(s: State, ids: set<string>): State {
    s.(counts := map id | id in s.counts && id in ids :: s.counts[id])
  }

  /** What the machine does when the tracker goes from t to t'. */
  function Follow(s: State, i: nat, op: C.Op, t': C.State): State
    requires CanAnswer(s, i, op) && (s.threads[i] != Idle ==> s.threads[i].op < |s.heap|)
  {
    var kept := Keeping(s, t'.commands.Keys);
    match op
    case BeginPropertyOp(c) =>
      if c.id in t'.commands then Tracked(kept, i, c.id, false)
      else if C.SlotOf(c) in t'.pending && t'.pending[C.SlotOf(c)] in kept.counts && t'.pending[C.SlotOf(c)] in kept.replays then
        Tracked(kept, i, t'.pending[C.SlotOf(c)], true)
      else kept
    case BeginActionOp(c) => if c.id in t'.commands then Actioned(kept, c.id) else kept
    case AddCoalescedOp(_, _, _) => Credited(kept, i)
    case _ => kept
  }

  /** A chain of moves of the machine. */
  ghost predicate Chain(path: seq<State>, s: State, s': State) {
    |path| >= 1 && path[0] == s && path[|path| - 1] == s' && forall k :: 0 <= k < |path| - 1 ==> Steps(path[k], path[k + 1])
  }

  lemma OneMore(path: seq<State>, s: State, s': State, s'': State)
    requires Chain(path, s, s') && Steps(s', s'')
    ensures Chain(path + [s''], s, s'')
  {
  }

  /** Forgetting counts is a chain of evictions. */
  lemma {:induction false} EvictionsReach(s: State, i: nat, gone: set<string>) returns (path: seq<State>)
    requires i < |s.threads| && (s.threads[i] != Idle ==> s.threads[i].op < |s.heap|)
    ensures Chain(path, s, s.(counts := s.counts - gone))
    decreases |gone|
  {
    if gone == {} {
      path := [s];
      assert s.counts - gone == s.counts;
    } else {
      var id :| id in gone;
      path := EvictionsReach(s, i, gone - {id});
      var before, after := s.(counts := s.counts - (gone - {id})), s.(counts := s.counts - gone);
      assert after == Next(before, i, Evict(id)) by { assert (s.counts - (gone - {id})) - {id} == s.counts - gone; }
      assert Enabled(before, i, Evict(id));
      OneMore(path, s, before, after);
      path := path + [after];
    }
  }

  lemma KeepingIsEvicting(s: State, i: nat, ids: set<string>) returns (path: seq<State>)
    requires i < |s.threads| && (s.threads[i] != Idle ==> s.threads[i].op < |s.heap|)
    ensures Chain(path, s, Keeping(s, ids))
  {
    path := EvictionsReach(s, i, s.counts.Keys - ids);
    assert s.counts - (s.counts.Keys - ids) == Keeping(s, ids).counts;
  }

  /** The machine and the tracker agree on the counts. */
  ghost predicate Agree(t: C.State, s: State) {
    C.Inv(t) && Inv(s) && s.counts == CountsOf(t)
  }

  lemma KeptCounts(t: C.State, s: State, mid: C.State, ids: set<string>)
    requires s.counts == CountsOf(t) && OnlyDrops(CountsOf(t), CountsOf(mid))
    requires forall id :: id in t.commands ==> (id in ids <==> id in mid.commands)
    ensures Keeping(s, ids).counts == CountsOf(mid)
  {
    forall id | id in mid.commands
      ensures id in t.commands && t.commands[id].coalesced == mid.commands[id].coalesced
    {
      assert id in CountsOf(mid);
    }
  }

  lemma FollowsBegin(t: C.State, c: C.Command, t': C.State, s: State, i: nat)
    requires Agree(t, s) && C.Step(t, C.BeginPropertyOp(c), t') && CanAnswer(s, i, C.BeginPropertyOp(c)) && Sound(s, s.threads[i])
    ensures Follow(s, i, C.BeginPropertyOp(c), t').counts == CountsOf(t')
    ensures Steps(Keeping(s, t'.commands.Keys), Follow(s, i, C.BeginPropertyOp(c), t'))
  {
    var mid := BeginsFrom(t, c, t');
    FollowsBegun(t, mid, c, s, i);
  }

  lemma BeginsFrom(t: C.State, c: C.Command, t': C.State) returns (mid: C.State)
    requires C.BeginsProperty(t, c, t')
    ensures C.Evicts(t, t.maxItems - 1, mid) && C.Inv(mid) && t' == C.Begin(mid, c).state
  {
    mid :| C.Evicts(t, t.maxItems - 1, mid) && C.Inv(mid) && t' == C.Begin(mid, c).state;
  }

  lemma FollowsBegun(t: C.State, mid: C.State, c: C.Command, s: State, i: nat)
    requires Agree(t, s) && C.NewProperty(t, c) && C.Evicts(t, t.maxItems - 1, mid) && C.Inv(mid)
    requires CanAnswer(s, i, C.BeginPropertyOp(c)) && Sound(s, s.threads[i])
    ensures var t' := C.Begin(mid, c).state;
            && Follow(s, i, C.BeginPropertyOp(c), t').counts == CountsOf(t')
            && Steps(Keeping(s, t'.commands.Keys), Follow(s, i, C.BeginPropertyOp(c), t'))
  {
    EvictionOnlyDrops(t, t.maxItems - 1, mid);
    if C.Begin(mid, c).joined {
      JoiningJustJoined(mid, c, C.Begin(mid, c).state);
      FollowsJoined(t, mid, c, s, i, C.Begin(mid, c).state);
    } else {
      FollowsStarted(t, mid, c, s, i, C.Begin(mid, c).state);
    }
  }

  /** The machine has the tracker's counts after beginning a write, by one move once the evicted are forgotten. */
  ghost predicate Followed(s: State, i: nat, c: C.Command, t': C.State) {
    && CanAnswer(s, i, C.BeginPropertyOp(c)) && (s.threads[i] != Idle ==> s.threads[i].op < |s.heap|)
    && Follow(s, i, C.BeginPropertyOp(c), t').counts == CountsOf(t')
    && Steps(Keeping(s, t'.commands.Keys), Follow(s, i, C.BeginPropertyOp(c), t'))
  }

  lemma FollowsJoined(t: C.State, mid: C.State, c: C.Command, s: State, i: nat, t': C.State)
    requires s.counts == CountsOf(t) && OnlyDrops(CountsOf(t), CountsOf(mid)) && c.id !in t.commands && CountsAddUp(s)
    requires CanAnswer(s, i, C.BeginPropertyOp(c)) && Sound(s, s.threads[i]) && JustJoined(mid, c, t')
    ensures Followed(s, i, c, t')
  {
    FollowsJoin(t, mid, c, t', s, i, t'.pending[C.SlotOf(c)]);
  }

  /** The tracker has just joined the write to a command it has. */
  ghost predicate JustJoined(mid: C.State, c: C.Command, t': C.State) {
    && t'.commands.Keys == mid.commands.Keys && C.SlotOf(c) in t'.pending && t'.pending[C.SlotOf(c)] in mid.commands
    && CountsOf(t') == CountsOf(mid)[t'.pending[C.SlotOf(c)] := mid.commands[t'.pending[C.SlotOf(c)]].coalesced + 1]
  }

  lemma JoiningJustJoined(mid: C.State, c: C.Command, t': C.State)
    requires C.Inv(mid) && C.Begin(mid, c).joined && t' == C.Begin(mid, c).state
    ensures JustJoined(mid, c, t')
  {
    JoinedKeys(mid, c, t');
    JoinedCount(mid, c, t');
  }

  lemma JoinedKeys(mid: C.State, c: C.Command, t': C.State)
    requires C.Inv(mid) && C.Begin(mid, c).joined && t' == C.Begin(mid, c).state
    ensures t'.commands.Keys == mid.commands.Keys && t'.pending == mid.pending
    ensures C.SlotOf(c) in t'.pending && t'.pending[C.SlotOf(c)] in mid.commands
  {
  }

  lemma JoinedCount(mid: C.State, c: C.Command, t': C.State)
    requires C.Inv(mid) && C.Begin(mid, c).joined && t' == C.Begin(mid, c).state
    requires C.SlotOf(c) in mid.pending && mid.pending[C.SlotOf(c)] in mid.commands
    ensures var id := mid.pending[C.SlotOf(c)];
            CountsOf(t') == CountsOf(mid)[id := mid.commands[id].coalesced + 1]
  {
    JoiningCountsOne(mid, c);
  }

  lemma FollowsStarted(t: C.State, mid: C.State, c: C.Command, s: State, i: nat, t': C.State)
    requires s.counts == CountsOf(t) && OnlyDrops(CountsOf(t), CountsOf(mid)) && c.id !in t.commands
    requires C.NewProperty(mid, c) && C.Inv(mid) && !C.Begin(mid, c).joined && t' == C.Begin(mid, c).state
    requires CanAnswer(s, i, C.BeginPropertyOp(c)) && Sound(s, s.threads[i])
    ensures Follow(s, i, C.BeginPropertyOp(c), t').counts == CountsOf(t')
    ensures Steps(Keeping(s, t'.commands.Keys), Follow(s, i, C.BeginPropertyOp(c), t'))
  {
    BegunKeys(mid, c);
    StartingCountsNone(mid, c);
    KeptCounts(t, s, mid, t'.commands.Keys);
    StartFollows(s, i, c, t');
  }

  lemma FollowsJoin(t: C.State, mid: C.State, c: C.Command, t': C.State, s: State, i: nat, id: string)
    requires s.counts == CountsOf(t) && OnlyDrops(CountsOf(t), CountsOf(mid)) && c.id !in t.commands
    requires CanAnswer(s, i, C.BeginPropertyOp(c)) && Sound(s, s.threads[i]) && CountsAddUp(s)
    requires t'.commands.Keys == mid.commands.Keys && C.SlotOf(c) in t'.pending && t'.pending[C.SlotOf(c)] == id
    requires id in mid.commands && CountsOf(t') == CountsOf(mid)[id := mid.commands[id].coalesced + 1]
    ensures Followed(s, i, c, t')
  {
    KeptCounts(t, s, mid, t'.commands.Keys);
    assert CountsOf(mid).Keys == mid.commands.Keys && CountsOf(mid).Keys <= CountsOf(t).Keys;
    JoinFollows(s, i, c, t', id);
  }

  lemma JoinFollows(s: State, i: nat, c: C.Command, t': C.State, id: string)
    requires CanAnswer(s, i, C.BeginPropertyOp(c)) && Sound(s, s.threads[i]) && CountsAddUp(s)
    requires c.id !in t'.commands && C.SlotOf(c) in t'.pending && t'.pending[C.SlotOf(c)] == id
    requires id in Keeping(s, t'.commands.Keys).counts
    requires CountsOf(t') == Keeping(s, t'.commands.Keys).counts[id := Keeping(s, t'.commands.Keys).counts[id] + 1]
    ensures Follow(s, i, C.BeginPropertyOp(c), t').counts == CountsOf(t')
    ensures Steps(Keeping(s, t'.commands.Keys), Follow(s, i, C.BeginPropertyOp(c), t'))
  {
    var kept := Keeping(s, t'.commands.Keys);
    assert id in s.counts && id in s.used && id in s.replays;
    assert Enabled(kept, i, TrackerBegin(id, true)) && Follow(s, i, C.BeginPropertyOp(c), t') == Next(kept, i, TrackerBegin(id, true));
  }

  lemma StartFollows(s: State, i: nat, c: C.Command, t': C.State)
    requires CanAnswer(s, i, C.BeginPropertyOp(c)) && Sound(s, s.threads[i]) && c.id in t'.commands
    requires CountsOf(t') == Keeping(s, t'.commands.Keys).counts[c.id := 0]
    ensures Follow(s, i, C.BeginPropertyOp(c), t').counts == CountsOf(t')
    ensures Steps(Keeping(s, t'.commands.Keys), Follow(s, i, C.BeginPropertyOp(c), t'))
  {
    var kept := Keeping(s, t'.commands.Keys);
    assert Enabled(kept, i, TrackerBegin(c.id, false)) && Follow(s, i, C.BeginPropertyOp(c), t') == Next(kept, i, TrackerBegin(c.id, false));
  }

  lemma BegunKeys(mid: C.State, c: C.Command)
    requires C.Inv(mid) && C.NewProperty(mid, c)
    ensures var r := C.Begin(mid, c);
            && r.state.commands.Keys == (if r.joined then mid.commands.Keys else mid.commands.Keys + {c.id})
            && (r.joined ==> C.SlotOf(c) in mid.pending && r.state.pending == mid.pending)
  {
  }

  lemma FollowsAction(t: C.State, c: C.Command, t': C.State, s: State, i: nat)
    requires Agree(t, s) && C.Step(t, C.BeginActionOp(c), t') && CanAnswer(s, i, C.BeginActionOp(c)) && Sound(s, s.threads[i])
    ensures var kept, s' := Keeping(s, t'.commands.Keys), Follow(s, i, C.BeginActionOp(c), t');
            s'.counts == CountsOf(t') && (s' == kept || Steps(kept, s'))
  {
    if c.key != "" && C.ScopeOf(c) in t.idempotency {
      KeptCounts(t, s, t, t'.commands.Keys);
    } else {
      var mid :| C.Evicts(t, t.maxItems - 1, mid) && t' == C.BeginAction(mid, c);
      ActionFollows(t, mid, c, s, i);
    }
  }

  lemma ActionFollows(t: C.State, mid: C.State, c: C.Command, s: State, i: nat)
    requires s.counts == CountsOf(t) && c.id !in t.commands && C.Evicts(t, t.maxItems - 1, mid)
    requires CanAnswer(s, i, C.BeginActionOp(c)) && Sound(s, s.threads[i])
    ensures var t' := C.BeginAction(mid, c);
            && Follow(s, i, C.BeginActionOp(c), t').counts == CountsOf(t')
            && Steps(Keeping(s, t'.commands.Keys), Follow(s, i, C.BeginActionOp(c), t'))
  {
    var t' := C.BeginAction(mid, c);
    var kept := Keeping(s, t'.commands.Keys);
    EvictionOnlyDrops(t, t.maxItems - 1, mid);
    KeptCounts(t, s, mid, t'.commands.Keys);
    ActionCountsNone(mid, c);
    assert Enabled(kept, i, TrackerAction(c.id)) && Follow(s, i, C.BeginActionOp(c), t') == Next(kept, i, TrackerAction(c.id));
  }

  lemma FollowsCredit(t: C.State, id: string, amount: nat, now: int, t': C.State, s: State, i: nat)
    requires Agree(t, s) && C.Step(t, C.AddCoalescedOp(id, amount, now), t')
    requires CanAnswer(s, i, C.AddCoalescedOp(id, amount, now)) && Sound(s, s.threads[i])
    ensures var kept, s' := Keeping(s, t'.commands.Keys), Follow(s, i, C.AddCoalescedOp(id, amount, now), t');
            s'.counts == CountsOf(t') && Steps(kept, s')
  {
    CreditIsTheTrackers(t, id, amount, now, t');
    KeptCounts(t, s, t, t'.commands.Keys);
    var kept := Keeping(s, t'.commands.Keys);
    assert Enabled(kept, i, Credit) && Follow(s, i, C.AddCoalescedOp(id, amount, now), t') == Next(kept, i, Credit);
  }

  /** Whatever the tracker does, moves of the machine lead from its counts before to its counts after. */
  lemma TrackerIsFollowed(t: C.State, op: C.Op, t': C.State, s: State, i: nat) returns (path: seq<State>)
    requires Agree(t, s) && C.Step(t, op, t') && CanAnswer(s, i, op) && Sound(s, s.threads[i])
    ensures Chain(path, s, Follow(s, i, op, t')) && Follow(s, i, op, t').counts == CountsOf(t')
  {
    var kept, s' := Keeping(s, t'.commands.Keys), Follow(s, i, op, t');
    path := KeepingIsEvicting(s, i, t'.commands.Keys);
    if op.BeginPropertyOp? {
      FollowsBegin(t, op.command, t', s, i);
    } else if op.BeginActionOp? {
      FollowsAction(t, op.command, t', s, i);
    } else if op.AddCoalescedOp? {
      FollowsCredit(t, op.id, op.count, op.now, t', s, i);
    } else {
      OtherTrackerStepsKeepCounts(t, op, t');
      KeptCounts(t, s, t', t'.commands.Keys);
    }
    if s' != kept {
      OneMore(path, s, kept, s');
      path := path + [s'];
    }
  }

  lemma {:induction false} ChainKeepsInv(path: seq<State>, s: State, s': State)
    requires Chain(path, s, s') && Inv(s)
    ensures Inv(s')
  {
    if |path| > 1 {
      var last := |path| - 1;
      ChainKeepsInv(path[..last], s, path[last - 1]);
      assert Steps(path[last - 1], path[last]);
      var i: nat, move :| Enabled(path[last - 1], i, move) && path[last] == Next(path[last - 1], i, move);
      NextKeepsInv(path[last - 1], i, move);
    }
  }

  // ----- runs of the two together -----

  datatype Joint = Joint(tracker: C.State, writes: State)

  /** Moves that do not concern the tracker's counts. */
  predicate Local(move: Move) {
    move.Begin? || move.SetCommand? || move.Finish? || move.Leave?
  }

  /** Either a thread moves by itself, or the tracker does something and the machine follows. */
  ghost predicate JointStep(a: Joint, b: Joint) {
    || (b.tracker == a.tracker && exists i: nat, move :: Local(move) && Enabled(a.writes, i, move) && b.writes == Next(a.writes, i, move))
    || (exists i: nat, op :: C.Step(a.tracker, op, b.tracker) && CanAnswer(a.writes, i, op) && Sound(a.writes, a.writes.threads[i])
                             && b.writes == Follow(a.writes, i, op, b.tracker))
  }

  ghost predicate IsJointRun(run: seq<Joint>) {
    && |run| >= 1 && C.Inv(run[0].tracker) && C.Bounded(run[0].tracker) && Start(run[0].writes)
    && run[0].writes.counts == CountsOf(run[0].tracker)
    && forall k :: 0 <= k < |run| - 1 ==> JointStep(run[k], run[k + 1])
  }

  lemma JointStepAgrees(a: Joint, b: Joint)
    requires Agree(a.tracker, a.writes) && C.Bounded(a.tracker) && JointStep(a, b)
    ensures Agree(b.tracker, b.writes) && C.Bounded(b.tracker)
  {
    if i: nat, move :| b.tracker == a.tracker && Local(move) && Enabled(a.writes, i, move) && b.writes == Next(a.writes, i, move) {
      NextKeepsInv(a.writes, i, move);
    } else {
      var i: nat, op :| C.Step(a.tracker, op, b.tracker) && CanAnswer(a.writes, i, op) && Sound(a.writes, a.writes.threads[i])
                        && b.writes == Follow(a.writes, i, op, b.tracker);
      C.StepInvariant(a.tracker, op, b.tracker);
      var path := TrackerIsFollowed(a.tracker, op, b.tracker, a.writes, i);
      ChainKeepsInv(path, a.writes, b.writes);
    }
  }

  lemma {:induction false} JointRunAgrees(run: seq<Joint>, k: nat)
    requires IsJointRun(run) && k < |run|
    ensures Agree(run[k].tracker, run[k].writes) && C.Bounded(run[k].tracker)
  {
    if k > 0 {
      JointRunAgrees(run, k - 1);
      assert JointStep(run[k - 1], run[k]);
      JointStepAgrees(run[k - 1], run[k]);
    } else {
      RunInvariant([run[0].writes], 0);
    }
  }

  /**
   At every point of every run, the coalesced count of every command the tracker retains is what the
   tracker joined itself plus what the operations added.
   */
  lemma TrackerCountsAddUp(run: seq<Joint>, k: nat, id: string)
    requires IsJointRun(run) && k < |run| && id in run[k].tracker.commands
    ensures id in run[k].writes.replays
    ensures run[k].tracker.commands[id].coalesced == run[k].writes.replays[id] + Total(run[k].writes.heap, id)
  {
    JointRunAgrees(run, k);
    assert id in run[k].writes.counts;
  }
}
