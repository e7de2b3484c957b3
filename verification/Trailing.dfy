/** The write guard reads the room before the insert, so a message may still land in a room that has just ended: at
    most one for each request that was already past its guard. */
module Trailing {
  import opened Wrappers
  import opened Lifecycle
  import opened Tables
  import opened Protocol
  import opened Evolution
  import opened Effects

  /** All messages of the room, counting or not. */
  function MessagesIn(messages: seq<Message>, room: RoomId): nat {
    if messages == [] then 0
    else MessagesIn(messages[..|messages| - 1], room) + if messages[|messages| - 1].room == room then 1 else 0
  }

  /** Past the write guard, with its insertion still to come. */
  predicate MayInsert(r: Request) {
    match r.pc
    case FindInstance(_) => r.call.op.Send? || r.call.op.Signal? || r.call.op.Extend?
    case FindHandle(_) => r.call.op.Send? || r.call.op.Signal? || r.call.op.Extend?
    case Sending(_, _, step) => step.CheckRecipient? || step.InsertCapped?
    case Signalling(_, _, _) => true
    case Extending(_, _, _) => true
    case _ => false
  }

  ghost function Writers(s: State, room: RoomId): set<RequestId> {
    set id | id in s.requests && s.requests[id].call.room == room && MayInsert(s.requests[id])
  }

  ghost predicate Ended(d: Db, room: RoomId) {
    room in d.rooms && d.rooms[room].state.Terminal()
  }

  lemma CloseSilent(d: Db, id: RequestId, call: Call, room: Room, me: Handle, step: CloseStep)
    ensures CloseNext(d, id, call, room, me, step).0.messages == d.messages
  {
  }

  lemma SweepSilent(d: Db, id: RequestId, call: Call, room: Room, step: SweepStep)
    ensures SweepNext(d, id, call, room, step).0.messages == d.messages
  {
  }

  /** In an ended room no request passes the guard any more. */
  lemma GuardShut(d: Db, id: RequestId, r: Request, pinged: bool, t: Tick)
    requires RowsNumbered(d) && Fits(r.call, r.pc) && Lawful(r.pc) && Ended(d, r.call.room)
    ensures var (d', next) := Advance(d, id, r, pinged, t);
      next.Goto? && MayInsert(Request(r.call, next.pc)) ==> MayInsert(r)
    ensures var (d', next) := Advance(d, id, r, pinged, t);
      d'.messages != d.messages ==> MayInsert(r) && next.Goto? && !MayInsert(Request(r.call, next.pc))
  {
    hide WaitNext, WaiterNext, JoinNext, SweepNext, CloseNext, Evolves, RowsNumbered, Lawful;
    AdvanceKeeps(d, id, r, pinged, t);
    if Quiet(r.pc) { AdvanceQuiet(d, id, r, pinged, t); }
    if r.pc.Closing? { CloseSilent(d, id, r.call, r.pc.room, r.pc.me, r.pc.close); }
    if r.pc.Sweeping? { SweepSilent(d, id, r.call, r.pc.room, r.pc.sweep); }
  }

  lemma CountAll(messages: seq<Message>, m: Message, room: RoomId)
    ensures MessagesIn(messages + [m], room) == MessagesIn(messages, room) + if m.room == room then 1 else 0
  {
    assert (messages + [m])[..|messages|] == messages;
  }

  lemma SmallerSet<T>(a: set<T>, b: set<T>)
    requires a <= b
    ensures |a| <= |b|
  {
    assert b == a + (b - a);
  }

  ghost function Expected(s: State, room: RoomId): nat {
    MessagesIn(s.db.messages, room) + |Writers(s, room)|
  }

  lemma ApplyWriters(s: State, id: RequestId, d': Db, next: Next, t: Tick, room: RoomId)
    requires id in s.requests
    requires next.Goto? && MayInsert(Request(s.requests[id].call, next.pc)) ==>
      (MayInsert(s.requests[id]) || s.requests[id].call.room != room)
    ensures Writers(Apply(s, id, d', next, t), room) <= Writers(s, room)
  {
  }

  lemma ApplyTrailing(s: State, id: RequestId, d': Db, next: Next, t: Tick, room: RoomId)
    requires id in s.requests && Appends(s.db, id, s.requests[id], d', next)
    requires s.requests[id].call.room == room ==>
      && (next.Goto? && MayInsert(Request(s.requests[id].call, next.pc)) ==> MayInsert(s.requests[id]))
      && (d'.messages != s.db.messages ==>
            MayInsert(s.requests[id]) && next.Goto? && !MayInsert(Request(s.requests[id].call, next.pc)))
    ensures Expected(Apply(s, id, d', next, t), room) <= Expected(s, room)
  {
    var s' := Apply(s, id, d', next, t);
    ApplyWriters(s, id, d', next, t, room);
    SmallerSet(Writers(s', room), Writers(s, room));
    if d'.messages != s.db.messages {
      var m :| AppendsOne(s.db, id, s.requests[id], d', next, m);
      CountAll(s.db.messages, m, room);
      if s.requests[id].call.room == room {
        assert id in Writers(s, room) && id !in Writers(s', room);
        SmallerSet(Writers(s', room), Writers(s, room) - {id});
      }
    }
  }

  lemma RunTrailing(s: State, id: RequestId, t: Tick, room: RoomId)
    requires WellFormed(s) && Ended(s.db, room) && id in s.requests
    ensures Expected(Step(s, Run(id, t)), room) <= Expected(s, room)
  {
    assert RequestOk(s, id);
    var r := s.requests[id];
    var pinged := id in s.pings;
    var (d', next) := Advance(s.db, id, r, pinged, t);
    hide Advance, Appends;
    if r.call.room == room { GuardShut(s.db, id, r, pinged, t); }
    AdvanceAppends(s.db, id, r, pinged, t);
    ApplyTrailing(s, id, d', next, t, room);
  }

  lemma StepTrailing(s: State, a: Action, room: RoomId)
    requires WellFormed(s) && Ended(s.db, room)
    ensures Expected(Step(s, a), room) <= Expected(s, room)
  {
    hide Advance;
    match a
    case Run(id, t) => if id in s.requests { RunTrailing(s, id, t, room); }
    case Begin(call) =>
      assert forall id :: id in s.requests ==> RequestOk(s, id);
      assert Writers(Step(s, a), room) <= Writers(s, room);
      SmallerSet(Writers(Step(s, a), room), Writers(s, room));
    case Disconnect(id) =>
      assert Writers(Step(s, a), room) <= Writers(s, room);
      SmallerSet(Writers(Step(s, a), room), Writers(s, room));
    case _ => assert Writers(Step(s, a), room) == Writers(s, room);
  }

  /** However the run goes on after a room has ended, at most as many messages still land in it as there were requests
      past their guard at that moment. */
  lemma {:induction false} TrailingWritesBounded(s: State, run: seq<Action>, room: RoomId)
    requires WellFormed(s) && Ended(s.db, room)
    ensures Ended(Exec(s, run).db, room)
    ensures Expected(Exec(s, run), room) <= Expected(s, room)
    ensures MessagesIn(Exec(s, run).db.messages, room) <= MessagesIn(s.db.messages, room) + |Writers(s, room)|
  {
    if run != [] {
      var before := Exec(s, run[..|run| - 1]);
      RunKeeps(s, run[..|run| - 1]);
      TrailingWritesBounded(s, run[..|run| - 1], room);
      StepKeeps(before, run[|run| - 1]);
      StepTrailing(before, run[|run| - 1], room);
    }
  }

  /** The only state change a send makes is to wake an idle or stale room: it never moves a room out of paused,
      closed or archived, however stale the state it read. */
  lemma SendOnlyRevives(d: Db, id: RequestId, r: Request, pinged: bool, t: Tick)
    requires Fits(r.call, r.pc) && Lawful(r.pc) && r.call.op.Send?
    ensures var d' := Advance(d, id, r, pinged, t).0;
      d'.rooms.Keys == d.rooms.Keys &&
      forall k :: k in d.rooms && d'.rooms[k].state != d.rooms[k].state ==>
        d'.rooms[k].state == Active && (d.rooms[k].state.Idle? || d.rooms[k].state.Stale?)
  {
    AdvanceMoves(d, id, r, pinged, t);
  }

  // ---- a send wakes the room ----

  /** At work on a send that read the room idle or stale. */
  ghost predicate ReadQuiet(r: Request, room: Room) {
    r.call.op.Send? && SnapshotOf(r.pc) == Some(room) && (room.state.Idle? || room.state.Stale?)
  }

  ghost predicate StandsAt(d: Db, room: RoomId, state: RoomState) {
    room in d.rooms && d.rooms[room].state == state
  }

  lemma SendGoesOn(d: Db, id: RequestId, r: Request, pinged: bool, t: Tick, room: Room)
    requires Fits(r.call, r.pc) && ReadQuiet(r, room)
    ensures var (d', next) := Advance(d, id, r, pinged, t);
      next.Goto? ==>
        if next.pc.Notifying? then !StandsAt(d', r.call.room, room.state) else ReadQuiet(Request(r.call, next.pc), room)
  {
    hide RosterOf, AppendCapped;
  }

  /** Since this moment the room has been seen in another state, or the send has not come to its ring. */
  ghost predicate WokenSince(run: seq<Action>, i: nat, id: RequestId, room: RoomId, read: Room)
    requires i <= |run|
  {
    var s := Exec(INIT, run);
    || LeftSince(run, i, room, read.state)
    || (id < |s.calls|
        && (id in s.requests ==> s.requests[id].call.room == room && ReadQuiet(s.requests[id], read)))
  }

  ghost predicate LeftSince(run: seq<Action>, i: nat, room: RoomId, state: RoomState)
    requires i <= |run|
  {
    exists n: nat :: i <= n <= |run| && !StandsAt(Exec(INIT, run[..n]).db, room, state)
  }

  lemma LeftLonger(run: seq<Action>, longer: seq<Action>, i: nat, room: RoomId, state: RoomState)
    requires i <= |run| && run <= longer
    ensures LeftSince(run, i, room, state) ==> LeftSince(longer, i, room, state)
    ensures !StandsAt(Exec(INIT, longer).db, room, state) ==> LeftSince(longer, i, room, state)
  {
    hide Exec, StandsAt;
    assert longer[..|longer|] == longer;
    if n: nat :| i <= n <= |run| && !StandsAt(Exec(INIT, run[..n]).db, room, state) {
      assert longer[..n] == run[..n];
    }
  }

  lemma StepGoesOn(s: State, a: Action, id: RequestId, room: RoomId, read: Room)
    requires WellFormed(s) && (id in s.requests ==> s.requests[id].call.room == room && ReadQuiet(s.requests[id], read))
    requires id < |s.calls|
    ensures var s' := Step(s, a);
      id < |s'.calls| &&
      (id in s'.requests ==>
         if s'.requests[id].pc.Notifying? then !StandsAt(s'.db, room, read.state)
         else s'.requests[id].call.room == room && ReadQuiet(s'.requests[id], read))
  {
    hide Advance, ReadQuiet, Lawful, SnapshotOk, RowsNumbered, MessagesPlaced;
    if a.Run? && a.id == id && id in s.requests {
      assert RequestOk(s, id);
      SendGoesOn(s.db, id, s.requests[id], id in s.pings, a.tick, read);
    }
    if id in s.requests { QuietIsNotRinging(s.requests[id], read); }
  }

  lemma QuietIsNotRinging(r: Request, room: Room)
    requires ReadQuiet(r, room)
    ensures !r.pc.Notifying?
  {
  }

  lemma {:induction false} AlwaysWoken(run: seq<Action>, i: nat, id: RequestId, room: RoomId, read: Room)
    requires i <= |run|
    requires var s := Exec(INIT, run[..i]);
      id < |s.calls| && id in s.requests && s.requests[id].call.room == room && ReadQuiet(s.requests[id], read)
    ensures WokenSince(run, i, id, room, read)
  {
    hide Step, ReadQuiet, LeftSince, WellFormed;
    if i == |run| {
      assert run[..i] == run;
    } else {
      var shorter, a := run[..|run| - 1], run[|run| - 1];
      assert shorter[..i] == run[..i];
      AlwaysWoken(shorter, i, id, room, read);
      LeftLonger(shorter, run, i, room, read.state);
      InitIsWellFormed();
      RunKeeps(INIT, shorter);
      if !LeftSince(shorter, i, room, read.state) {
        StepGoesOn(Exec(INIT, shorter), a, id, room, read);
      }
    }
  }

  /** In every run: when a send that read its room idle or stale comes to its ring, the room has left that state
      since. */
  lemma SendsWakeRooms(run: seq<Action>, i: nat, id: RequestId, read: Room)
    requires i <= |run| && id in Exec(INIT, run[..i]).requests && ReadQuiet(Exec(INIT, run[..i]).requests[id], read)
    requires id in Exec(INIT, run).requests && Exec(INIT, run).requests[id].pc.Notifying?
    ensures LeftSince(run, i, Exec(INIT, run[..i]).requests[id].call.room, read.state)
  {
    hide Exec, LeftSince, ReadQuiet;
    var s := Exec(INIT, run[..i]);
    InitIsWellFormed();
    RunKeeps(INIT, run[..i]);
    assert RequestOk(s, id);
    AlwaysWoken(run, i, id, s.requests[id].call.room, read);
    if ReadQuiet(Exec(INIT, run).requests[id], read) { QuietIsNotRinging(Exec(INIT, run).requests[id], read); }
  }
}
