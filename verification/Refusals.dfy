/** Why requests fail, whatever went on since they began; and that a refused blocker leaves no trace. */
module Refusals {
  import opened Wrappers
  import opened Lifecycle
  import opened Tables
  import opened Protocol
  import opened Evolution
  import opened Effects
  import opened Outcomes

  // ---- reasons ----

  /** What the room's state, as read, refuses on entry. */
  predicate Shuts(op: Op, state: RoomState) {
    || ((op.Send? || op.Signal? || op.Extend?) && state in {Paused, Closed, Archived})
    || (op.Close? && state in {Closed, Archived})
    || (op.Sweep? && state == Archived)
  }

  /** What a participant may not do although the room is open to it: signal anything but the three signals, pause a
      stale room for a blocker, pause or wake a room from where that is no move. A room read as ended is not closed
      either. */
  predicate Senseless(op: Op, state: RoomState) {
    match op
    case Signal(kind) =>
      if kind.BlockerRealWork? then state !in {Active, Idle} else !(kind.WaitingUser? || kind.Fold?)
    case Pause => state !in {Active, Idle}
    case Wake => state !in {Idle, Paused}
    case Close(force) => force && state in {Closed, Archived}
    case Join(_) => true
    case Prune => true
    case Sweep => true
    case _ => false
  }

  /** Somebody else has moved the room since. */
  ghost predicate MovedOn(d: Db, room: RoomId, read: RoomState) {
    !(room in d.rooms && d.rooms[room].state == read)
  }

  ghost predicate ReasonOfWaiter(d: Db, room: RoomId, me: Handle, zero: bool, stage: WaiterStage, t: Tick) {
    match stage
    case ReadCursor => me !in d.participants && (zero || t.expired)
    case ReadUnread(cursor) =>
      (forall k: nat :: k > cursor ==> !IsFor(d.messages, room, me, k)) && (zero || t.expired)
    case SwapCursor(cursor, _) => me in d.participants && d.participants[me].cursor == cursor  // it has its message
    case YieldOnRoom => room in d.rooms && d.rooms[room].state in {Paused, Closed, Archived}
    case YieldOnClose => CloseProposed(RosterOf(d, room), me, t.now)
    case YieldOnExtend(_) => ExtendProposed(RosterOf(d, room), me, t.now)
    case Parked(_, _) => t.expired
  }

  /** Why a request ends here without a ring. */
  ghost predicate Reason(d: Db, r: Request, t: Tick)
    requires Fits(r.call, r.pc)
  {
    var op, room := r.call.op, r.call.room;
    match r.pc
    case LoadRoom => room !in d.rooms || Shuts(op, d.rooms[room].state)
    case FindInstance(read) => ByInstance(d, room, r.call.instance).Some? && Senseless(op, read.state)
    case FindHandle(read) =>
      !(r.call.instance in d.participants && d.participants[r.call.instance].room == room) || Senseless(op, read.state)
    case Sending(_, _, CheckRecipient) =>
      op.to.None? || !(op.to.value in d.participants && d.participants[op.to.value].room == room)
    case Sending(read, _, InsertCapped) => |TalkIn(d.messages, room)| >= read.hardCap
    case Signalling(read, _, PauseFirst(_, _)) => MovedOn(d, room, read.state)
    case Closing(read, _, CountVotes(now)) =>
      && read.state in {Closed, Archived}
      && |CloseVoters(RosterOf(d, room), now)| >= read.quorum.Needed(|Live(RosterOf(d, room), now)|)
    case Closing(_, _, Recheck(_)) => !(room in d.rooms && d.rooms[room].state in {Closed, Archived})
    case Extending(_, _, VoteAndCount) => room !in d.rooms
    case Moving(read, _) => MovedOn(d, room, read.state)
    case Entering(_, me, _, CheckCounterpart) => !Accompanied(d, room, me)
    case Waiting(me, _, zero, stage) => ReasonOfWaiter(d, room, me, zero, stage, t)
    case Joining(InsertRow(_, attempt, h)) =>
      attempt >= 64 && (h in d.participants || exists g :: HasInstance(d, room, r.call.instance, g))
    case Pruning => true
    case Sweeping(_, SwapSwept(_, _)) => true
    case Sweeping(read, ReadPolls(now)) =>
      var polls := set h | h in RosterOf(d, room) :: RosterOf(d, room)[h].lastPollAt;
      ComputeTimeEvent(read.state, read.lastActivityAt, read.stateChangedAt, polls, now).None?
    case _ => false
  }

  lemma SendReasons(d: Db, id: RequestId, r: Request, t: Tick)
    requires Fits(r.call, r.pc) && r.pc.Sending?
    ensures SendNext(d, id, r.call, r.pc.room, r.pc.me, r.pc.send, t).1.Finish? <==> Reason(d, r, t)
    ensures !SendNext(d, id, r.call, r.pc.room, r.pc.me, r.pc.send, t).1.Conflict?
  {
    CountIsTalk(d.messages, r.call.room);
  }

  lemma CloseReasons(d: Db, id: RequestId, r: Request, t: Tick)
    requires Fits(r.call, r.pc) && r.pc.Closing?
    ensures var next := CloseNext(d, id, r.call, r.pc.room, r.pc.me, r.pc.close).1;
      next.Finish? || next.Conflict? <==> Reason(d, r, t)
  {
    hide RosterOf, CloseVoters, Live, UpdateRoomState;
  }

  lemma WaiterReasons(d: Db, r: Request, pinged: bool, t: Tick)
    requires Fits(r.call, r.pc) && r.pc.Waiting?
    ensures var next := WaiterNext(d, r.call, r.pc.me, r.pc.row, r.pc.zero, r.pc.stage, pinged, t).1;
      && (next.Finish? <==> Reason(d, r, t)) && !next.Conflict?
  {
    hide RosterOf, CloseProposed, ExtendProposed;
    forall k: nat | 1 <= k <= |d.messages|
      ensures IsFor(d.messages, r.call.room, r.pc.me, k) <==> Relevant(d.messages, r.call.room, r.pc.me, k) {}
  }

  lemma WaitReasons(d: Db, r: Request, t: Tick)
    requires Fits(r.call, r.pc) && r.pc.Entering?
    ensures var next := WaitNext(d, r.call, r.pc.room, r.pc.me, r.pc.row, r.pc.enter, t).1;
      && (next.Finish? <==> Reason(d, r, t)) && !next.Conflict?
  {
    hide CloseProposed, ExtendProposed, CounterpartIsStale, LatestFromOther;
    assert forall h :: h in RosterOf(d, r.call.room) <==> h in d.participants && d.participants[h].room == r.call.room;
  }

  lemma JoinReasons(d: Db, id: RequestId, r: Request, t: Tick)
    requires Fits(r.call, r.pc) && r.pc.Joining?
    ensures var next := JoinNext(d, id, r.call, r.pc.join, t).1;
      && (next.Finish? <==> Reason(d, r, t)) && !next.Conflict?
  {
    hide RecentUpTo, Identity.DeriveHandle, CurrentSeq, RosterOf;
  }

  lemma FoundReasons(d: Db, call: Call, room: Room, me: Handle, t: Tick)
    requires me in d.participants
    ensures var next := Found(d, call, room, me, t);
      (next.Finish? <==> Senseless(call.op, room.state)) && !next.Conflict?
  {
  }

  /** Every request that ends without a ring does so for its reason, on the tables of that very moment and on what it
      has read before; and wherever there is such a reason it ends. */
  lemma FailuresHaveReasons(d: Db, id: RequestId, r: Request, pinged: bool, t: Tick)
    requires Fits(r.call, r.pc)
    ensures var next := Advance(d, id, r, pinged, t).1; next.Finish? || next.Conflict? <==> Reason(d, r, t)
  {
    hide SendNext, CloseNext, WaiterNext, WaitNext, JoinNext, Found, Reason;
    match r.pc
    case Sending(_, _, _) => SendReasons(d, id, r, t);
    case Closing(_, _, _) => CloseReasons(d, id, r, t);
    case Waiting(_, _, _, _) => WaiterReasons(d, r, pinged, t);
    case Entering(_, _, _, _) => WaitReasons(d, r, t);
    case Joining(_) => JoinReasons(d, id, r, t);
    case _ => OtherReasons(d, id, r, pinged, t);
  }

  lemma OtherReasons(d: Db, id: RequestId, r: Request, pinged: bool, t: Tick)
    requires Fits(r.call, r.pc)
    requires !(r.pc.Sending? || r.pc.Closing? || r.pc.Waiting? || r.pc.Entering? || r.pc.Joining?)
    ensures var next := Advance(d, id, r, pinged, t).1; next.Finish? || next.Conflict? <==> Reason(d, r, t)
  {
    hide Found, RosterOf, Tables.TryExtend, ComputeTimeEvent, Senseless;
    match r.pc
    case FindInstance(room) =>
      var me := ByInstance(d, r.call.room, r.call.instance);
      if me.Some? { FoundReasons(d, r.call, room, me.value, t); }
    case FindHandle(room) =>
      if HasHandle(d, r.call.room, r.call.instance) { FoundReasons(d, r.call, room, r.call.instance, t); }
    case _ =>
  }

  // ---- blockers ----

  /** The request has paused its room then, and has its row of the audit log for it. */
  ghost predicate HasPaused(events: seq<Event>, id: RequestId, room: RoomId, now: Time) {
    exists e :: e in events && e.mover == id && e.room == room && e.to == Paused && e.at == now
  }

  ghost predicate MessagePaused(events: seq<Event>, m: Message) {
    m.kind.BlockerRealWork? ==> HasPaused(events, m.sentBy, m.room, m.createdAt)
  }

  /** A request about to post a blocker has paused the room. */
  ghost predicate RequestPaused(events: seq<Event>, id: RequestId, r: Request) {
    && (r.pc.Signalling? && r.pc.signal.PauseFirst? ==> r.pc.signal.to == Paused)
    && (r.pc.Signalling? && r.pc.signal.InsertSignal? && r.call.op.Signal? && r.call.op.kind.BlockerRealWork? ==>
          HasPaused(events, id, r.call.room, r.pc.signal.now))
  }

  ghost predicate AllPaused(s: State) {
    && (forall m :: m in s.db.messages ==> MessagePaused(s.db.events, m))
    && (forall id :: id in s.requests ==> RequestPaused(s.db.events, id, s.requests[id]))
  }

  lemma PausesStay(events: seq<Event>, longer: seq<Event>, id: RequestId, r: Request, m: Message)
    requires events <= longer
    ensures RequestPaused(events, id, r) ==> RequestPaused(longer, id, r)
    ensures MessagePaused(events, m) ==> MessagePaused(longer, m)
  {
    assert forall e :: e in events ==> e in longer;
  }

  lemma SignalPauses(d: Db, id: RequestId, r: Request, pinged: bool, t: Tick)
    requires Fits(r.call, r.pc) && r.call.op.Signal? && RequestPaused(d.events, id, r)
    ensures var (d', next) := Advance(d, id, r, pinged, t);
      && (next.Goto? ==> RequestPaused(d'.events, id, Request(r.call, next.pc)))
      && (d'.messages == d.messages || exists m :: d'.messages == d.messages + [m] && MessagePaused(d'.events, m))
  {
    hide HasPaused;
    var (d', next) := Advance(d, id, r, pinged, t);
    if r.pc.Signalling? {
      if r.pc.signal.PauseFirst? {
        if next.Goto? { JustPaused(d, d', id, r.call.room, r.pc.room.state, r.pc.signal.now); }
      } else {
        var m := Message(r.call.room, r.pc.me, None, r.call.op.kind, false, r.pc.signal.now, id);
        assert d'.messages == d.messages + [m] && MessagePaused(d'.events, m);
      }
    }
  }

  lemma JustPaused(d: Db, d': Db, id: RequestId, room: RoomId, read: RoomState, now: Time)
    requires (d', true) == UpdateRoomState(d, room, read, Paused, now, Routine, id)
    ensures HasPaused(d'.events, id, room, now)
  {
    assert d'.events[|d.events|] in d'.events;
  }

  lemma ExtendsPostNotices(d: Db, id: RequestId, r: Request, t: Tick)
    requires Fits(r.call, r.pc) && r.pc.Extending?
    ensures var d' := ExtendNext(d, id, r.call, r.pc.room, r.pc.me, r.pc.extend, t).0;
      d'.messages == d.messages || exists m :: d'.messages == d.messages + [m] && !m.kind.BlockerRealWork?
  {
    hide RosterOf, PolledSince, ExtendVotersSince;
    if r.pc.extend.Announce? {
      assert !Message(r.call.room, r.pc.me, None, ExtendNotice, false, r.pc.extend.now, id).kind.BlockerRealWork?;
    }
  }

  lemma SendsPostMessages(d: Db, id: RequestId, r: Request, t: Tick)
    requires Fits(r.call, r.pc) && r.pc.Sending?
    ensures var d' := SendNext(d, id, r.call, r.pc.room, r.pc.me, r.pc.send, t).0;
      d'.messages == d.messages || exists m :: d'.messages == d.messages + [m] && !m.kind.BlockerRealWork?
  {
    hide CountCapped;
    if r.pc.send.InsertCapped? {
      assert !Message(r.call.room, r.pc.me, r.call.op.to, Msg, r.call.op.fromHuman, t.now, id).kind.BlockerRealWork?;
    }
  }

  lemma OthersPostNoBlocker(d: Db, id: RequestId, r: Request, pinged: bool, t: Tick)
    requires Fits(r.call, r.pc) && !r.call.op.Signal?
    ensures var (d', next) := Advance(d, id, r, pinged, t);
      && (next.Goto? ==> !next.pc.Signalling?)
      && (d'.messages == d.messages || exists m :: d'.messages == d.messages + [m] && !m.kind.BlockerRealWork?)
  {
    hide RosterOf, CloseVoters, Live, Tables.TryExtend, ComputeTimeEvent, AppendCapped, UpdateRoomState;
    AdvanceAppends(d, id, r, pinged, t);
    if r.pc.Sending? { SendsPostMessages(d, id, r, t); }
    if r.pc.Extending? { ExtendsPostNotices(d, id, r, t); }
  }

  lemma PausedStill(s: State, id: RequestId, d': Db, next: Next, t: Tick)
    requires id in s.requests && AllPaused(s) && s.db.events <= d'.events
    requires next.Goto? ==> RequestPaused(d'.events, id, Request(s.requests[id].call, next.pc))
    requires d'.messages == s.db.messages || exists m ::
      d'.messages == s.db.messages + [m] && MessagePaused(d'.events, m)
    ensures AllPaused(Apply(s, id, d', next, t))
  {
    hide MessagePaused, RequestPaused;
    var s' := Apply(s, id, d', next, t);
    forall m | m in d'.messages ensures MessagePaused(d'.events, m) {
      if m in s.db.messages { PausesStay(s.db.events, d'.events, id, s.requests[id], m); }
    }
    forall other | other in s'.requests ensures RequestPaused(d'.events, other, s'.requests[other]) {
      if other != id {
        PausesStay(s.db.events, d'.events, other, s.requests[other], Message("", "", None, Msg, false, 0, 0));
      }
    }
  }

  lemma StepPauses(s: State, a: Action)
    requires WellFormed(s) && AllPaused(s)
    ensures AllPaused(Step(s, a))
  {
    hide Advance, Lawful, SnapshotOk, RowsNumbered, MessagesPlaced, MessagePaused, HasPaused, Apply;
    match a
    case Run(id, t) =>
      if id in s.requests {
        assert RequestOk(s, id);
        var r, pinged := s.requests[id], id in s.pings;
        var (d', next) := Advance(s.db, id, r, pinged, t);
        StepKeeps(s, a);
        assert s.db.events <= d'.events by { EventsGrow(s, id, t); }
        if r.call.op.Signal? {
          SignalPauses(s.db, id, r, pinged, t);
        } else {
          OthersPostNoBlocker(s.db, id, r, pinged, t);
          OtherMessages(d'.events);
        }
        PausedStill(s, id, d', next, t);
      }
    case _ =>
  }

  lemma OtherMessages(events: seq<Event>)
    ensures forall m: Message :: !m.kind.BlockerRealWork? ==> MessagePaused(events, m)
  {
  }

  lemma EventsGrow(s: State, id: RequestId, t: Tick)
    requires WellFormed(s) && id in s.requests
    ensures s.db.events <= Advance(s.db, id, s.requests[id], id in s.pings, t).0.events
  {
    hide Advance, SnapshotOk, MessagesPlaced;
    assert RequestOk(s, id);
    AdvanceKeeps(s.db, id, s.requests[id], id in s.pings, t);
  }

  lemma {:induction false} AlwaysPaused(run: seq<Action>)
    ensures AllPaused(Exec(INIT, run))
  {
    hide Step, AllPaused, WellFormed;
    if run == [] {
      NothingPosted();
    } else {
      InitIsWellFormed();
      RunKeeps(INIT, run[..|run| - 1]);
      AlwaysPaused(run[..|run| - 1]);
      StepPauses(Exec(INIT, run[..|run| - 1]), run[|run| - 1]);
    }
  }

  lemma NothingPosted()
    ensures AllPaused(INIT)
  {
  }

  /** In every run: behind every blocker in the log there is the pause of its room, made at that time by the very
      request that posted it. A blocker that could not pause its room is not posted. */
  lemma BlockersHavePaused(run: seq<Action>, m: Message)
    requires m in Exec(INIT, run).db.messages && m.kind.BlockerRealWork?
    ensures HasPaused(Exec(INIT, run).db.events, m.sentBy, m.room, m.createdAt)
  {
    hide Exec, HasPaused;
    AlwaysPaused(run);
    assert MessagePaused(Exec(INIT, run).db.events, m);
  }
}
