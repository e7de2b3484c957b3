/** The writes of a step, table by table: which fields of which rows, and when. */
module Effects {
  import opened Wrappers
  import opened Lifecycle
  import opened Tables
  import opened Protocol
  import opened Evolution

  /** Everything a step can do to the row under `h`, apart from leaving it alone. */
  ghost predicate RowWritten(d: Db, id: RequestId, r: Request, t: Tick, h: Handle, p': Participant) {
    if h !in d.participants then
      && r.pc.Joining? && r.pc.join.InsertRow? && r.pc.join.handle == h
      && ByInstance(d, r.call.room, r.call.instance).None?
      && p' == Participant(r.call.room, r.call.instance, t.now, r.pc.join.start, None, None, d.nextRow, id,
                           r.pc.join.start, [])
    else
      var p := d.participants[h];
      match r.pc
      case Sending(_, me, DropCloseVote(_)) => h == me && p' == p.(wantsClose := None)
      case Sending(_, me, DropExtendVote(_)) => h == me && p' == p.(wantsExtend := None)
      case Closing(_, me, TouchCloser(now)) => h == me && p' == p.(lastPollAt := now)
      case Closing(_, me, CastVote(now)) => h == me && p' == p.(wantsClose := Some(Vote(now, id, d.casts)))
      case Closing(_, _, ClearVotes) => p.room == r.call.room && p' == p.(wantsClose := None)
      case Extending(_, me, VoteAndCount) =>
        || (h == me && p' == p.(wantsExtend := Some(Vote(t.now, id, d.casts)), lastPollAt := t.now))
        || (h == me && p.room == r.call.room && p' == p.(wantsExtend := None, lastPollAt := t.now))
        || (p.room == r.call.room && p' == p.(wantsExtend := None))
      case Entering(_, me, _, Refresh) => h == me && p' == p.(lastPollAt := t.now)
      case Entering(_, me, _, TouchPoll(_)) => h == me && p' == p.(lastPollAt := t.now)
      case Waiting(me, _, _, SwapCursor(cursor, k)) =>
        h == me && p.cursor == cursor && p' == p.(cursor := k, claimed := p.claimed + [k])
      case _ => false
  }

  ghost predicate RowKept(d: Db, id: RequestId, r: Request, t: Tick, h: Handle, p': Participant) {
    (h in d.participants && p' == d.participants[h]) || RowWritten(d, id, r, t, h, p')
  }

  ghost predicate RowRemoved(d: Db, r: Request, t: Tick, h: Handle)
    requires h in d.participants
  {
    r.pc.Pruning? && d.participants[h].room == r.call.room && d.participants[h].lastPollAt < t.now - GHOST_AFTER
  }

  ghost predicate RowsFollow(d: Db, id: RequestId, r: Request, t: Tick, d': Db) {
    && (forall h :: h in d'.participants ==> RowKept(d, id, r, t, h, d'.participants[h]))
    && (forall h :: h in d.participants && h !in d'.participants ==> RowRemoved(d, r, t, h))
  }

  lemma SendRows(d: Db, id: RequestId, r: Request, t: Tick)
    requires Fits(r.call, r.pc) && r.pc.Sending?
    ensures RowsFollow(d, id, r, t, SendNext(d, id, r.call, r.pc.room, r.pc.me, r.pc.send, t).0)
  {
  }

  lemma SignalRows(d: Db, id: RequestId, r: Request, t: Tick)
    requires Fits(r.call, r.pc) && r.pc.Signalling?
    ensures RowsFollow(d, id, r, t, SignalNext(d, id, r.call, r.pc.room, r.pc.me, r.pc.signal).0)
  {
  }

  lemma CloseRows(d: Db, id: RequestId, r: Request, t: Tick)
    requires r.pc.Closing?
    ensures RowsFollow(d, id, r, t, CloseNext(d, id, r.call, r.pc.room, r.pc.me, r.pc.close).0)
  {
  }

  lemma ExtendRows(d: Db, id: RequestId, r: Request, t: Tick)
    requires r.pc.Extending?
    ensures RowsFollow(d, id, r, t, ExtendNext(d, id, r.call, r.pc.room, r.pc.me, r.pc.extend, t).0)
  {
  }

  lemma WaitRows(d: Db, id: RequestId, r: Request, t: Tick)
    requires Fits(r.call, r.pc) && r.pc.Entering?
    ensures RowsFollow(d, id, r, t, WaitNext(d, r.call, r.pc.room, r.pc.me, r.pc.row, r.pc.enter, t).0)
  {
  }

  lemma WaiterRows(d: Db, id: RequestId, r: Request, pinged: bool, t: Tick)
    requires r.pc.Waiting?
    ensures RowsFollow(d, id, r, t, WaiterNext(d, r.call, r.pc.me, r.pc.row, r.pc.zero, r.pc.stage, pinged, t).0)
  {
  }

  lemma JoinRows(d: Db, id: RequestId, r: Request, t: Tick)
    requires Fits(r.call, r.pc) && r.pc.Joining?
    ensures RowsFollow(d, id, r, t, JoinNext(d, id, r.call, r.pc.join, t).0)
  {
  }

  lemma SweepRows(d: Db, id: RequestId, r: Request, t: Tick)
    requires r.pc.Sweeping?
    ensures RowsFollow(d, id, r, t, SweepNext(d, id, r.call, r.pc.room, r.pc.sweep).0)
  {
  }

  /** No step writes a row in any other way. */
  lemma AdvanceRows(d: Db, id: RequestId, r: Request, pinged: bool, t: Tick)
    requires Fits(r.call, r.pc)
    ensures RowsFollow(d, id, r, t, Advance(d, id, r, pinged, t).0)
  {
    hide SendNext, SignalNext, CloseNext, ExtendNext, WaitNext, WaiterNext, JoinNext, SweepNext, LoadStep, Found;
    match r.pc
    case Sending(_, _, _) => SendRows(d, id, r, t);
    case Signalling(_, _, _) => SignalRows(d, id, r, t);
    case Closing(_, _, _) => CloseRows(d, id, r, t);
    case Extending(_, _, _) => ExtendRows(d, id, r, t);
    case Entering(_, _, _, _) => WaitRows(d, id, r, t);
    case Waiting(_, _, _, _) => WaiterRows(d, id, r, pinged, t);
    case Joining(_) => JoinRows(d, id, r, t);
    case Sweeping(_, _) => SweepRows(d, id, r, t);
    case _ =>
  }

  // ---- what a step does to a room's state and to the events ----

  ghost predicate SameStanding(r: Room, r': Room) {
    r'.state == r.state && r'.stateChangedAt == r.stateChangedAt && r'.openedAt == r.openedAt
        && r'.changedBy == r.changedBy
  }

  ghost predicate NoMove(d: Db, d': Db) {
    d'.events == d.events && d'.rooms.Keys == d.rooms.Keys
    && forall r :: r in d.rooms ==> SameStanding(d.rooms[r], d'.rooms[r])
  }

  /** The step was a successful state change of the request's own room, along an edge of the table. */
  ghost predicate MovedBy(d: Db, id: RequestId, r: Request, d': Db, next: Next, from: RoomState, to: RoomState,
                         now: Time, cause: Cause) {
    && r.call.room in d.rooms && d.rooms[r.call.room].state == from
    && d' == UpdateRoomState(d, r.call.room, from, to, now, cause, id).0
    && Edge(from, to)
    && (to == Closed <==> !cause.Routine?)
    && (to == Closed ==> r.pc.Closing? && r.pc.close == SwapClosed(to, now, cause))
    && (to == Closed || to == Paused ==> next.Goto? && HasHalted(next.pc))
  }

  ghost predicate Moved(d: Db, id: RequestId, r: Request, d': Db, next: Next) {
    exists from, to, now, cause :: MovedBy(d, id, r, d', next, from, to, now, cause)
  }

  lemma AdvanceMoves(d: Db, id: RequestId, r: Request, pinged: bool, t: Tick)
    requires Fits(r.call, r.pc) && Lawful(r.pc)
    ensures var (d', next) := Advance(d, id, r, pinged, t); NoMove(d, d') || Moved(d, id, r, d', next)
  {
    var (d', next) := Advance(d, id, r, pinged, t);
    if Quiet(r.pc) { AdvanceQuiet(d, id, r, pinged, t); }
    hide WaitNext, WaiterNext, JoinNext, LoadStep, Found;
    var here := r.call.room in d.rooms;
    match r.pc
    case Sending(room, _, Revive(now)) =>
      assert Transition(room.state, OnMessage) == Ok(Active);
      if here && d.rooms[r.call.room].state == room.state {
        assert MovedBy(d, id, r, d', next, room.state, Active, now, Routine);
      }
    case Signalling(room, _, PauseFirst(to, now)) =>
      if here && d.rooms[r.call.room].state == room.state {
        assert MovedBy(d, id, r, d', next, room.state, to, now, Routine);
      }
    case Closing(room, _, SwapClosed(to, now, cause)) =>
      if here && d.rooms[r.call.room].state == room.state {
        assert MovedBy(d, id, r, d', next, room.state, to, now, cause);
      }
    case Moving(room, to) =>
      if here && d.rooms[r.call.room].state == room.state {
        assert MovedBy(d, id, r, d', next, room.state, to, t.now, Routine);
      }
    case Sweeping(room, SwapSwept(to, now)) =>
      if here && d.rooms[r.call.room].state == room.state {
        assert MovedBy(d, id, r, d', next, room.state, to, now, Routine);
      }
    case _ => assert NoMove(d, d');
  }
}
