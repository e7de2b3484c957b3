/** Consensus close converges: if everybody who is there ends with a close, the room ends closed, however the requests
    interleave. */
module Consensus {
  import opened Wrappers
  import opened Lifecycle
  import opened Tables
  import opened Protocol
  import opened Evolution
  import opened Effects

  /** Some participants of a room, and the last close of each. */
  datatype Stretch = Stretch(room: RoomId, present: set<Handle>, last: map<Handle, RequestId>)

  ghost predicate IsOpen(c: Stretch, d: Db) {
    c.room in d.rooms && d.rooms[c.room].state.Active?
  }

  /** The row a request with this instance string is taken to. */
  ghost predicate StandsFor(d: Db, room: RoomId, instance: string, h: Handle) {
    match ByInstance(d, room, instance)
    case Some(g) => g == h
    case None => instance == h && HasHandle(d, room, h)
  }

  predicate PastVote(pc: Pc) {
    pc.Notifying? || (pc.Closing? && !pc.close.TouchCloser? && !pc.close.CastVote?)
  }

  predicate AtCount(pc: Pc) {
    pc.Closing? && pc.close.CountVotes?
  }

  predicate AtSwap(pc: Pc) {
    pc.Closing? && pc.close.SwapClosed?
  }

  /** The last close of `h` has cast its vote. */
  ghost predicate HasVoted(c: Stretch, s: State, h: Handle)
    requires h in c.last
  {
    c.last[h] < |s.calls| && (c.last[h] in s.requests ==> PastVote(s.requests[c.last[h]].pc))
  }

  /** It has counted, too. */
  ghost predicate HasCounted(c: Stretch, s: State, h: Handle)
    requires h in c.last
  {
    HasVoted(c, s, h) && (c.last[h] in s.requests ==> !AtCount(s.requests[c.last[h]].pc))
  }

  ghost predicate IsClosing(c: Stretch, s: State, h: Handle)
    requires h in c.last
  {
    c.last[h] in s.requests && AtSwap(s.requests[c.last[h]].pc)
  }

  ghost predicate VoteStands(d: Db, h: Handle) {
    h in d.participants && d.participants[h].wantsClose.Some?
  }

  // ---- the stretch ----

  /** A send at work for `h` that has not yet retracted its close vote. */
  predicate StillRetracts(r: Request, h: Handle) {
    && r.pc.Sending? && r.pc.me == h
    && (r.pc.send.CheckRecipient? || r.pc.send.InsertCapped? || r.pc.send.DropCloseVote?)
  }

  /** From its beginning on, the last close of `h` is an unforced close by `h`; and from its vote on, `h` keeps its row
      and has no send still to retract the vote. */
  ghost predicate EndsWithClose(c: Stretch, s: State, h: Handle)
    requires h in c.last
  {
    var f := c.last[h];
    f < |s.calls| ==>
      && s.calls[f].op == Close(false) && s.calls[f].room == c.room
      && if !HasVoted(c, s, h) then StandsFor(s.db, c.room, s.calls[f].instance, h)
         else HasHandle(s.db, c.room, h) && forall id :: id in s.requests ==> !StillRetracts(s.requests[id], h)
  }

  /** What the stretch grants at each of its moments: the room is active until it is closed, and each of those present
      ends with a close. */
  ghost predicate Granted(c: Stretch, s: State)
    requires c.last.Keys == c.present
  {
    && c.room in s.db.rooms && (s.db.rooms[c.room].state.Active? || s.db.rooms[c.room].state.Closed?)
    && forall h :: h in c.present ==> EndsWithClose(c, s, h)
  }

  /** Somebody is live, and nobody is who is not one of those present. */
  ghost predicate OnlyPresentLive(c: Stretch, d: Db, now: Time) {
    var live := Live(RosterOf(d, c.room), now);
    live != {} && live <= c.present
  }

  /** What it grants of a step: when a last close counts and all the last closes have voted, only those present are
      live. Until then anybody may come and go. */
  ghost predicate GrantedStep(c: Stretch, s: State, a: Action)
    requires c.last.Keys == c.present
  {
    && a.Run? && a.id in s.requests && a.id in c.last.Values && AtCount(s.requests[a.id].pc)
    && (forall h :: h in c.present ==> HasVoted(c, s, h))
    ==> OnlyPresentLive(c, s.db, s.requests[a.id].pc.close.now)
  }

  /** The last close of `h`, if it is at work, acts for `h` and read the room active. */
  ghost predicate Underway(c: Stretch, s: State, h: Handle)
    requires h in c.last
  {
    c.last[h] in s.requests ==>
      var r := s.requests[c.last[h]];
      && (HandleOf(r.pc).Some? ==> HandleOf(r.pc) == Some(h))
      && (r.pc.FindHandle? ==> r.call.instance == h)
      && (SnapshotOf(r.pc).Some? ==> SnapshotOf(r.pc).value.state.Active?)
  }

  /** As the stretch begins, one of the last closes is still to count; those that have voted already have their votes
      standing. Nothing is asked of anybody else, nor of those whose last close is still to come: they may even be still
      to join. */
  ghost predicate Opening(c: Stretch, s: State) {
    && c.present != {} && c.last.Keys == c.present
    && (forall h :: h in c.present ==> Underway(c, s, h) && (HasVoted(c, s, h) ==> VoteStands(s.db, h)))
    && exists h :: h in c.present && !HasCounted(c, s, h)
  }

  ghost predicate IsStretch(c: Stretch, s: State, run: seq<Action>) {
    && Opening(c, s)
    && (forall n :: 0 <= n <= |run| ==> Granted(c, Exec(s, run[..n])))
    && (forall n :: 0 <= n < |run| ==> GrantedStep(c, Exec(s, run[..n]), run[n]))
  }

  // ---- what holds at every moment of the stretch ----

  /** While the room is open: votes cast by last closes stand, and when the last of them has counted, one of them is
      about to close the room. */
  ghost predicate VotesHold(c: Stretch, s: State)
    requires c.last.Keys == c.present
  {
    IsOpen(c, s.db) ==>
      && (forall h :: h in c.present && HasVoted(c, s, h) ==> VoteStands(s.db, h))
      && ((forall h :: h in c.present ==> HasCounted(c, s, h)) ==> exists h :: h in c.present && IsClosing(c, s, h))
  }

  ghost predicate ClearsEnded(d: Db, r: Request) {
    r.pc.Closing? && r.pc.close.ClearVotes? ==> r.call.room in d.rooms && d.rooms[r.call.room].state.Terminal()
  }

  /** Whoever is about to clear the votes of a room has seen it ended. */
  ghost predicate AllClearEnded(s: State) {
    forall id :: id in s.requests ==> ClearsEnded(s.db, s.requests[id])
  }

  ghost predicate Holds(c: Stretch, s: State) {
    && c.last.Keys == c.present
    && (forall h :: h in c.present ==> Underway(c, s, h))
    && VotesHold(c, s)
    && AllClearEnded(s)
  }

  // ---- clearing ----

  lemma AdvanceClears(d: Db, id: RequestId, r: Request, pinged: bool, t: Tick)
    requires Fits(r.call, r.pc) && Lawful(r.pc)
    ensures var (d', next) := Advance(d, id, r, pinged, t); next.Goto? ==> ClearsEnded(d', Request(r.call, next.pc))
  {
    hide TryExtend, RosterOf, CloseProposed, ExtendProposed, CounterpartIsStale;
  }

  lemma ClearsStay(d: Db, d': Db, r: Request)
    requires ClearsEnded(d, r) && Evolves(d, d')
    ensures ClearsEnded(d', r)
  {
  }

  lemma StepClears(s: State, a: Action)
    requires WellFormed(s) && AllClearEnded(s)
    ensures AllClearEnded(Step(s, a))
  {
    hide Advance, ClearsEnded, Evolves, RowsNumbered, MessagesPlaced, Lawful, Fits, SnapshotOk;
    StepKeeps(s, a);
    var s' := Step(s, a);
    if a.Run? && a.id in s.requests {
      assert RequestOk(s, a.id);
      AdvanceClears(s.db, a.id, s.requests[a.id], a.id in s.pings, a.tick);
    }
    forall id | id in s'.requests ensures ClearsEnded(s'.db, s'.requests[id]) {
      if id in s.requests && s'.requests[id] == s.requests[id] {
        ClearsStay(s.db, s'.db, s.requests[id]);
      } else if !a.Run? {
        NothingToClear(s'.db, s'.requests[id]);
      }
    }
  }

  lemma NothingToClear(d: Db, r: Request)
    requires r.pc.LoadRoom?
    ensures ClearsEnded(d, r)
  {
  }

  lemma {:induction false} AlwaysClearEnded(run: seq<Action>)
    ensures AllClearEnded(Exec(INIT, run))
  {
    if run != [] {
      RunKeeps(INIT, run[..|run| - 1]);
      AlwaysClearEnded(run[..|run| - 1]);
      StepClears(Exec(INIT, run[..|run| - 1]), run[|run| - 1]);
    }
  }

  // ---- votes ----

  /** When everybody present has a standing vote and nobody else is live, a count finds enough. */
  lemma EverybodyIsEnough(c: Stretch, d: Db, quorum: CloseQuorum, now: Time)
    requires OnlyPresentLive(c, d, now) && forall h :: h in c.present ==> VoteStands(d, h)
    ensures var read := RosterOf(d, c.room); |CloseVoters(read, now)| >= quorum.Needed(|Live(read, now)|)
  {
    var read := RosterOf(d, c.room);
    forall h | h in Live(read, now) ensures h in CloseVoters(read, now) { assert VoteStands(d, h); }
    assert CloseVoters(read, now) == Live(read, now);
    assert |Live(read, now)| > 0;
  }

  /** What a step of the last close of `h` does. */
  ghost predicate LastMoves(c: Stretch, d: Db, pc: Pc, h: Handle, d': Db, next: Next) {
    && (!PastVote(pc) ==> next.Goto? && (PastVote(next.pc) ==> AtCount(next.pc) && VoteStands(d', h)))
    && (AtCount(pc) ==>
          && next.Goto? && PastVote(next.pc)
          && (OnlyPresentLive(c, d, pc.close.now) && (forall g :: g in c.present ==> VoteStands(d, g)) ==>
                AtSwap(next.pc)))
    && (AtSwap(pc) ==> !IsOpen(c, d'))
  }

  lemma LastCloses(c: Stretch, d: Db, id: RequestId, call: Call, room: Room, h: Handle, step: CloseStep)
    requires Lawful(Closing(room, h, step)) && IsOpen(c, d) && h in d.participants
    requires call.room == c.room && room.state.Active?
    ensures var (d', next) := CloseNext(d, id, call, room, h, step);
      LastMoves(c, d, Closing(room, h, step), h, d', next)
  {
    hide OnlyPresentLive, CloseVoters, Live, RosterOf;
    if step.CountVotes? && OnlyPresentLive(c, d, step.now) && forall g :: g in c.present ==> VoteStands(d, g) {
      EverybodyIsEnough(c, d, room.quorum, step.now);
    }
  }

  /** The last close of `h` neither ends before it has voted and counted, nor fails to close the room it finds open. */
  lemma LastStep(c: Stretch, s: State, h: Handle, pinged: bool, t: Tick)
    requires h in c.last && c.last[h] in s.requests && RequestOk(s, c.last[h]) && Underway(c, s, h)
    requires IsOpen(c, s.db) && EndsWithClose(c, s, h)
    ensures var r := s.requests[c.last[h]];
      var (d', next) := Advance(s.db, c.last[h], r, pinged, t); LastMoves(c, s.db, r.pc, h, d', next)
  {
    hide CloseNext, OnlyPresentLive, VoteStands, RosterOf, Lawful, SnapshotOk, LastMoves;
    var r := s.requests[c.last[h]];
    assert r.call.op == Close(false) && r.call.room == c.room && HasHandle(s.db, c.room, h);
    if r.pc.Closing? {
      LastCloses(c, s.db, c.last[h], r.call, r.pc.room, h, r.pc.close);
    } else {
      var (d', next) := Advance(s.db, c.last[h], r, pinged, t);
      NotYetClosing(c, s.db, r.pc, h, d', next);
    }
  }

  lemma NotYetClosing(c: Stretch, d: Db, pc: Pc, h: Handle, d': Db, next: Next)
    requires !pc.Closing? && (!pc.Notifying? ==> next.Goto? && !PastVote(next.pc))
    ensures LastMoves(c, d, pc, h, d', next)
  {
  }

  /** While the room is open, nothing but a send for `h` could take its vote away. */
  lemma VoteStays(c: Stretch, d: Db, id: RequestId, r: Request, h: Handle, pinged: bool, t: Tick)
    requires Fits(r.call, r.pc) && ClearsEnded(d, r) && !StillRetracts(r, h)
    requires IsOpen(c, d) && HasHandle(d, c.room, h) && VoteStands(d, h)
    ensures var d' := Advance(d, id, r, pinged, t).0; h in d'.participants ==> VoteStands(d', h)
  {
    hide Advance;
    var d' := Advance(d, id, r, pinged, t).0;
    AdvanceRows(d, id, r, pinged, t);
    if h in d'.participants { assert RowKept(d, id, r, t, h, d'.participants[h]); }
  }

  lemma CountIsPastVote(pc: Pc)
    ensures AtCount(pc) ==> PastVote(pc) && !AtSwap(pc)
  {
  }

  /** What a step does to the votes of those present. */
  ghost predicate VotesMove(c: Stretch, s: State, id: RequestId, d': Db, next: Next)
    requires id in s.requests && c.last.Keys == c.present
  {
    forall h :: h in c.present ==>
      && (HasVoted(c, s, h) && VoteStands(s.db, h) ==> VoteStands(d', h))
      && (c.last[h] == id ==> LastMoves(c, s.db, s.requests[id].pc, h, d', next))
  }

  lemma TallyVotes(c: Stretch, s: State, id: RequestId, d': Db, next: Next, t: Tick, h: Handle)
    requires id in s.requests && c.last.Keys == c.present && IsOpen(c, s.db) && VotesHold(c, s)
    requires VotesMove(c, s, id, d', next) && h in c.present
    ensures HasVoted(c, Apply(s, id, d', next, t), h) ==> VoteStands(d', h)
  {
    hide IsOpen, VoteStands, AtCount, AtSwap, PastVote, OnlyPresentLive;
  }

  /** The bookkeeping of a step: who has voted, who has counted, who is closing. */
  lemma TallyCounts(c: Stretch, s: State, id: RequestId, d': Db, next: Next, t: Tick)
    requires id in s.requests && c.last.Keys == c.present && IsOpen(c, s.db) && VotesHold(c, s)
    requires VotesMove(c, s, id, d', next) && IsOpen(c, d') && GrantedStep(c, s, Run(id, t))
    requires forall h :: h in c.present ==> HasCounted(c, Apply(s, id, d', next, t), h)
    ensures exists h :: h in c.present && IsClosing(c, Apply(s, id, d', next, t), h)
  {
    var pc, s' := s.requests[id].pc, Apply(s, id, d', next, t);
    CountIsPastVote(pc);
    if next.Goto? { CountIsPastVote(next.pc); }
    hide IsOpen, VoteStands, AtCount, AtSwap, PastVote, OnlyPresentLive;
    forall h | h in c.present ensures HasVoted(c, s, h) && (c.last[h] == id || HasCounted(c, s, h)) {
      assert HasCounted(c, s', h);
    }
    hide VotesMove;
    if g :| g in c.present && c.last[g] == id && AtCount(pc) {
      assert LastMoves(c, s.db, pc, g, d', next) by { assert VotesMove(c, s, id, d', next); }
      assert id in c.last.Values;
      assert OnlyPresentLive(c, s.db, pc.close.now);
      assert IsClosing(c, s', g);
    } else {
      assert forall h :: h in c.present ==> HasCounted(c, s, h);
      var g :| g in c.present && IsClosing(c, s, g);
      assert IsClosing(c, s', g);
    }
  }

  lemma ApplyVotes(c: Stretch, s: State, id: RequestId, d': Db, next: Next, t: Tick)
    requires id in s.requests && c.last.Keys == c.present && IsOpen(c, s.db) && VotesHold(c, s)
    requires VotesMove(c, s, id, d', next) && GrantedStep(c, s, Run(id, t))
    ensures VotesHold(c, Apply(s, id, d', next, t))
  {
    hide VotesMove, HasCounted, HasVoted, IsClosing, IsOpen, VoteStands, GrantedStep;
    var s' := Apply(s, id, d', next, t);
    assert s'.db == d';
    hide Apply;
    forall h | h in c.present ensures HasVoted(c, s', h) ==> VoteStands(d', h) { TallyVotes(c, s, id, d', next, t, h); }
    if IsOpen(c, d') && forall h :: h in c.present ==> HasCounted(c, s', h) { TallyCounts(c, s, id, d', next, t); }
  }

  // ---- steps and runs ----

  /** The step leads from one moment of the stretch to the next. */
  ghost predicate Onward(c: Stretch, s: State, a: Action) {
    && WellFormed(s) && Holds(c, s) && Granted(c, s) && Granted(c, Step(s, a)) && GrantedStep(c, s, a)
  }

  /** The votes that stood still stand after the step. */
  lemma RunKeepsVote(c: Stretch, s: State, id: RequestId, t: Tick, h: Handle)
    requires id in s.requests && Onward(c, s, Run(id, t)) && IsOpen(c, s.db) && h in c.present
    requires HasVoted(c, s, h) && VoteStands(s.db, h)
    ensures VoteStands(Advance(s.db, id, s.requests[id], id in s.pings, t).0, h)
  {
    hide Advance, SnapshotOk, Lawful, Fits, VotesHold, StillRetracts, ClearsEnded, VoteStands, IsOpen;
    assert RequestOk(s, id) && EndsWithClose(c, s, h) && ClearsEnded(s.db, s.requests[id]);
    VoteStays(c, s.db, id, s.requests[id], h, id in s.pings, t);
    RowRemains(c, s, id, t, h);
  }

  /** A vote once cast is cast, and its row is granted to be there. */
  lemma RowRemains(c: Stretch, s: State, id: RequestId, t: Tick, h: Handle)
    requires id in s.requests && Onward(c, s, Run(id, t)) && h in c.present && HasVoted(c, s, h)
    ensures h in Advance(s.db, id, s.requests[id], id in s.pings, t).0.participants
  {
    hide Advance, SnapshotOk, Lawful, VotesHold, StillRetracts, Underway, AllClearEnded;
    assert RequestOk(s, id);
    var s' := Step(s, Run(id, t));
    assert s'.db == Advance(s.db, id, s.requests[id], id in s.pings, t).0;
    assert EndsWithClose(c, s', h);
  }

  lemma RunVotes(c: Stretch, s: State, id: RequestId, t: Tick)
    requires id in s.requests && Onward(c, s, Run(id, t)) && IsOpen(c, s.db)
    ensures VotesHold(c, Step(s, Run(id, t)))
  {
    hide Advance, VoteStands, LastMoves, Apply, IsOpen, Lawful, SnapshotOk, HasCounted, HasVoted, EndsWithClose,
        IsClosing, VotesHold, AllClearEnded, Underway, GrantedStep;
    assert RequestOk(s, id);
    var (d', next) := Advance(s.db, id, s.requests[id], id in s.pings, t);
    assert Step(s, Run(id, t)) == Apply(s, id, d', next, t);
    forall h | h in c.present
      ensures HasVoted(c, s, h) && VoteStands(s.db, h) ==> VoteStands(d', h)
      ensures c.last[h] == id ==> LastMoves(c, s.db, s.requests[id].pc, h, d', next)
    {
      if HasVoted(c, s, h) && VoteStands(s.db, h) { RunKeepsVote(c, s, id, t, h); }
      if c.last[h] == id { LastStep(c, s, h, id in s.pings, t); }
    }
    assert VotesMove(c, s, id, d', next);
    ApplyVotes(c, s, id, d', next, t);
  }

  lemma UnderwayOwn(c: Stretch, s: State, h: Handle, pinged: bool, t: Tick)
    requires h in c.last && c.last[h] in s.requests && RequestOk(s, c.last[h]) && Underway(c, s, h)
    requires c.room in s.db.rooms && (s.db.rooms[c.room].state.Active? || s.db.rooms[c.room].state.Closed?)
    requires EndsWithClose(c, s, h)
    ensures var r := s.requests[c.last[h]];
      var next := Advance(s.db, c.last[h], r, pinged, t).1;
      next.Goto? ==>
        && (HandleOf(next.pc).Some? ==> HandleOf(next.pc) == Some(h))
        && (next.pc.FindHandle? ==> r.call.instance == h)
        && (SnapshotOf(next.pc).Some? ==> SnapshotOf(next.pc).value.state.Active?)
  {
    hide Lawful, SnapshotOk, RosterOf, CloseVoters, Live, UpdateRoomState;
    AdvanceCarries(s.db, c.last[h], s.requests[c.last[h]], pinged, t);
    AdvanceActsFor(s.db, c.last[h], s.requests[c.last[h]], pinged, t);
  }

  lemma RunUnderway(c: Stretch, s: State, id: RequestId, t: Tick, h: Handle)
    requires id in s.requests && Onward(c, s, Run(id, t)) && h in c.present
    ensures Underway(c, Step(s, Run(id, t)), h)
  {
    hide Advance, VotesHold, AllClearEnded, Lawful, SnapshotOk, EndsWithClose, HandleOf, SnapshotOf;
    assert RequestOk(s, id) && Underway(c, s, h) && EndsWithClose(c, s, h);
    if c.last[h] == id { UnderwayOwn(c, s, h, id in s.pings, t); }
  }

  lemma OpenOrNot(c: Stretch, s: State)
    requires c.last.Keys == c.present
    ensures !IsOpen(c, s.db) ==> VotesHold(c, s)
  {
  }

  lemma StaysClosed(c: Stretch, s: State, a: Action)
    requires WellFormed(s) && c.last.Keys == c.present && Granted(c, s) && Granted(c, Step(s, a))
    ensures IsOpen(c, Step(s, a).db) ==> IsOpen(c, s.db)
  {
    hide Step, EndsWithClose, RowsNumbered, MessagesPlaced;
    StepKeeps(s, a);
  }

  lemma RunHolds(c: Stretch, s: State, id: RequestId, t: Tick)
    requires id in s.requests && Onward(c, s, Run(id, t))
    ensures Holds(c, Step(s, Run(id, t)))
  {
    hide Step, VotesHold, AllClearEnded, Underway, WellFormed, IsOpen, EndsWithClose, GrantedStep;
    var s' := Step(s, Run(id, t));
    StaysClosed(c, s, Run(id, t));
    StepClears(s, Run(id, t));
    forall h | h in c.present ensures Underway(c, s', h) { RunUnderway(c, s, id, t, h); }
    if IsOpen(c, s.db) { RunVotes(c, s, id, t); } else { OpenOrNot(c, s'); }
  }

  /** Beside the steps of requests, a last close can only begin. */
  lemma QuietVote(c: Stretch, s: State, a: Action, h: Handle)
    requires h in c.last && !a.Run? && |s.calls| !in s.requests && Underway(c, s, h)
    requires c.last[h] in s.requests ==> !s.requests[c.last[h]].call.op.Wait?
    ensures var s' := Step(s, a);
      && Underway(c, s', h)
      && (HasVoted(c, s', h) ==> HasVoted(c, s, h))
      && (HasCounted(c, s', h) ==> HasCounted(c, s, h))
      && (IsClosing(c, s, h) ==> IsClosing(c, s', h))
  {
    assert !PastVote(LoadRoom) && HandleOf(LoadRoom).None? && SnapshotOf(LoadRoom).None?;
    hide PastVote, AtCount, AtSwap, HandleOf, SnapshotOf;
  }

  lemma QuietRows(c: Stretch, s: State, a: Action)
    requires !a.Run? && c.room in s.db.rooms
    ensures var d' := Step(s, a).db;
      d'.participants == s.db.participants && c.room in d'.rooms && d'.rooms[c.room] == s.db.rooms[c.room]
  {
  }

  lemma LastIsClose(c: Stretch, s: State, h: Handle)
    requires h in c.last && WellFormed(s) && EndsWithClose(c, s, h)
    ensures c.last[h] in s.requests ==> s.requests[c.last[h]].call.op == Close(false)
  {
    assert c.last[h] in s.requests ==> RequestOk(s, c.last[h]);
  }

  lemma QuietHolds(c: Stretch, s: State, a: Action)
    requires Onward(c, s, a) && !a.Run?
    ensures Holds(c, Step(s, a))
  {
    hide Step, WellFormed, AllClearEnded, Underway, EndsWithClose, HasVoted, HasCounted, IsClosing, GrantedStep;
    var s' := Step(s, a);
    NextIdIsFree(s);
    StepClears(s, a);
    QuietRows(c, s, a);
    forall h | h in c.present
      ensures Underway(c, s', h)
      ensures HasVoted(c, s', h) ==> HasVoted(c, s, h)
      ensures HasCounted(c, s', h) ==> HasCounted(c, s, h)
      ensures IsClosing(c, s, h) ==> IsClosing(c, s', h)
    {
      LastIsClose(c, s, h);
      QuietVote(c, s, a, h);
    }
  }

  lemma OpeningHolds(c: Stretch, s: State)
    requires Opening(c, s) && AllClearEnded(s)
    ensures Holds(c, s)
  {
    hide HasVoted, HasCounted, IsClosing, Underway, IsOpen, VoteStands, AllClearEnded;
  }

  lemma NoSuchRequest(s: State, a: Action)
    requires a.Run? && a.id !in s.requests
    ensures Step(s, a) == s
  {
  }

  /** The stretch up to its last step, and that step. */
  lemma LastOf(c: Stretch, s: State, run: seq<Action>)
    requires IsStretch(c, s, run) && run != []
    ensures var shorter, a := run[..|run| - 1], run[|run| - 1];
      && IsStretch(c, s, shorter) && Exec(s, run) == Step(Exec(s, shorter), a)
      && Granted(c, Exec(s, shorter)) && Granted(c, Exec(s, run)) && GrantedStep(c, Exec(s, shorter), a)
  {
    hide Step, Opening, Granted, GrantedStep;
    var shorter := run[..|run| - 1];
    assert forall n :: 0 <= n <= |shorter| ==> run[..n] == shorter[..n];
    assert run[..|run|] == run;
    assert forall n :: 0 <= n < |shorter| ==> run[n] == shorter[n];
  }

  lemma ExecGrows(s: State, run: seq<Action>, a: Action)
    ensures Exec(s, run + [a]) == Step(Exec(s, run), a)
  {
    hide Step;
    assert (run + [a])[..|run|] == run;
  }

  lemma {:induction false} StretchHolds(c: Stretch, s: State, run: seq<Action>)
    requires WellFormed(s) && AllClearEnded(s) && IsStretch(c, s, run)
    ensures Holds(c, Exec(s, run))
  {
    hide Step, Exec, Holds, Granted, GrantedStep, Opening, WellFormed, AllClearEnded;
    if run == [] {
      assert Exec(s, run) == s by { NothingDone(s); }
      OpeningHolds(c, s);
    } else {
      var shorter, a := run[..|run| - 1], run[|run| - 1];
      LastOf(c, s, run);
      StretchHolds(c, s, shorter);
      RunKeeps(s, shorter);
      var before := Exec(s, shorter);
      assert Onward(c, before, a);
      if !a.Run? {
        QuietHolds(c, before, a);
      } else if a.id in before.requests {
        RunHolds(c, before, a.id, a.tick);
      } else {
        NoSuchRequest(before, a);
      }
    }
  }

  lemma NothingDone(s: State)
    ensures Exec(s, []) == s
  {
  }

  lemma GrantedAtEnd(c: Stretch, s: State, run: seq<Action>)
    requires IsStretch(c, s, run)
    ensures c.last.Keys == c.present && Granted(c, Exec(s, run))
  {
    hide Exec, Granted, GrantedStep;
    assert run[..|run|] == run;
  }

  ghost predicate Answered(c: Stretch, s: State) {
    forall h :: h in c.present ==> h in c.last && c.last[h] < |s.calls| && c.last[h] !in s.requests
  }

  lemma AnsweredMeansClosed(c: Stretch, s: State)
    requires Holds(c, s) && Answered(c, s) && Granted(c, s)
    ensures c.room in s.db.rooms && s.db.rooms[c.room].state == Closed
  {
    assert forall h :: h in c.present ==> HasCounted(c, s, h) && !IsClosing(c, s, h);
  }

  /** Take any stretch of any run in which a room is active until it is closed, and some participants each end with an
      unforced close and keep their rows and their votes from then on. Its last closes may lie any time apart, and
      anybody else may come, speak, vote and go, as long as nobody else is live when a last close counts and all of them
      have voted. However all the steps interleave: once those last closes are answered, the room is closed. */
  lemma ConsensusCloseConverges(c: Stretch, before: seq<Action>, run: seq<Action>)
    requires var s := Exec(INIT, before); IsStretch(c, s, run) && Answered(c, Exec(s, run))
    ensures var d := Exec(Exec(INIT, before), run).db; c.room in d.rooms && d.rooms[c.room].state == Closed
  {
    hide Exec, Holds, Answered, Granted, GrantedStep, Opening, WellFormed, AllClearEnded;
    var s := Exec(INIT, before);
    InitIsWellFormed();
    RunKeeps(INIT, before);
    AlwaysClearEnded(before);
    StretchHolds(c, s, run);
    GrantedAtEnd(c, s, run);
    AnsweredMeansClosed(c, Exec(s, run));
  }
}
