/** Every step of the daemon writes by one of the statements pruning is invisible to, so the runs of the daemon have
    traces of them. */
module PrunedRuns {
  import opened Wrappers
  import opened Lifecycle
  import opened Tables
  import opened Protocol
  import opened Evolution
  import P = Pruning

  /** The statement a step of the request executes, if it writes at all. */
  function StatementOf(id: RequestId, r: Request, t: Tick): Option<P.Statement> {
    var room := r.call.room;
    match r.pc
    case Sending(seen, me, step) =>
      (match step
       case CheckRecipient => None
       case InsertCapped =>
         if !r.call.op.Send? then None
         else Some(P.WriteCapped(Message(room, me, r.call.op.to, Msg, r.call.op.fromHuman, t.now, id), seen.hardCap))
       case DropCloseVote(_) => Some(P.Retract(me))
       case DropExtendVote(_) => Some(P.RetractExtend(me))
       case TouchActivity(now) => Some(P.Use(room, now))
       case Revive(now) => Some(P.Revise(room, seen.state, Active, now, Routine, id)))
    case Signalling(seen, me, step) =>
      (match step
       case PauseFirst(after, now) => Some(P.Revise(room, seen.state, after, now, Routine, id))
       case InsertSignal(now) =>
         if !r.call.op.Signal? then None else Some(P.Write(Message(room, me, None, r.call.op.kind, false, now, id))))
    case Closing(seen, me, step) =>
      (match step
       case TouchCloser(now) => Some(P.Touch(me, now))
       case CastVote(now) => Some(P.Vote(me, now, id))
       case SwapClosed(after, now, cause) => Some(P.Revise(room, seen.state, after, now, cause, id))
       case ClearVotes => Some(P.ClearVotes(room))
       case _ => None)
    case Extending(_, me, step) =>
      (match step
       case VoteAndCount => Some(P.Extend(room, me, t.now, id))
       case Announce(now) => Some(P.Write(Message(room, me, None, ExtendNotice, false, now, id))))
    case Moving(seen, after) => Some(P.Revise(room, seen.state, after, t.now, Routine, id))
    case Entering(_, me, _, step) => if step.Refresh? || step.TouchPoll? then Some(P.Touch(me, t.now)) else None
    case Waiting(me, _, _, SwapCursor(seen, next)) => Some(P.Claim(me, seen, next))
    case Joining(InsertRow(start, _, h)) =>
      Some(P.Insert(h, Participant(room, r.call.instance, t.now, start, None, None, 0, id, start, [])))
    case Pruning => Some(P.Prune(room, t.now))
    case Sweeping(seen, SwapSwept(after, now)) => Some(P.Revise(room, seen.state, after, now, Routine, id))
    case _ => None
  }

  ghost function Performed(d: Db, s: Option<P.Statement>): Db {
    match s
    case None => d
    case Some(statement) => P.Perform(d, statement)
  }

  lemma ExtendIsStatement(d: Db, id: RequestId, r: Request, t: Tick)
    requires Fits(r.call, r.pc) && SnapshotOk(d, r) && r.pc.Extending?
    ensures ExtendNext(d, id, r.call, r.pc.room, r.pc.me, r.pc.extend, t).0 == Performed(d, StatementOf(id, r, t))
  {
    hide TryExtend;
  }

  lemma SendIsStatement(d: Db, id: RequestId, r: Request, t: Tick)
    requires Fits(r.call, r.pc) && r.pc.Sending?
    ensures SendNext(d, id, r.call, r.pc.room, r.pc.me, r.pc.send, t).0 == Performed(d, StatementOf(id, r, t))
  {
    hide AppendCapped, RetractCloseVote, ClearExtendVote, TouchLastActivity, UpdateRoomState;
  }

  lemma CloseIsStatement(d: Db, id: RequestId, r: Request, t: Tick)
    requires r.pc.Closing?
    ensures CloseNext(d, id, r.call, r.pc.room, r.pc.me, r.pc.close).0 == Performed(d, StatementOf(id, r, t))
  {
    hide TouchLastPoll, CastCloseVote, UpdateRoomState, ClearCloseVotes, RosterOf, CloseVoters, Live;
  }

  lemma WaitIsStatement(d: Db, id: RequestId, r: Request, pinged: bool, t: Tick)
    requires Fits(r.call, r.pc)
    ensures r.pc.Entering? ==>
      WaitNext(d, r.call, r.pc.room, r.pc.me, r.pc.row, r.pc.enter, t).0 == Performed(d, StatementOf(id, r, t))
    ensures r.pc.Waiting? ==>
      WaiterNext(d, r.call, r.pc.me, r.pc.row, r.pc.zero, r.pc.stage, pinged, t).0
          == Performed(d, StatementOf(id, r, t))
  {
    hide TouchLastPoll, AdvanceCursor, RosterOf, CloseProposed, ExtendProposed, CounterpartIsStale, LatestFromOther,
        NextUnread;
  }

  lemma JoinIsStatement(d: Db, id: RequestId, r: Request, t: Tick)
    requires Fits(r.call, r.pc) && r.pc.Joining?
    ensures JoinNext(d, id, r.call, r.pc.join, t).0 == Performed(d, StatementOf(id, r, t))
  {
    hide InsertParticipant, RosterOf, CurrentSeq;
  }

  /** Each step does to the tables what its statement does, and nothing without one. */
  lemma StepIsStatement(d: Db, id: RequestId, r: Request, pinged: bool, t: Tick)
    requires Fits(r.call, r.pc) && SnapshotOk(d, r)
    ensures Advance(d, id, r, pinged, t).0 == Performed(d, StatementOf(id, r, t))
  {
    hide SendNext, CloseNext, ExtendNext, WaitNext, WaiterNext, JoinNext, LoadStep, Found, SnapshotOk, TryExtend;
    match r.pc
    case Sending(_, _, _) => SendIsStatement(d, id, r, t);
    case Closing(_, _, _) => CloseIsStatement(d, id, r, t);
    case Extending(_, _, _) => ExtendIsStatement(d, id, r, t);
    case Entering(_, _, _, _) => WaitIsStatement(d, id, r, pinged, t);
    case Waiting(_, _, _, _) => WaitIsStatement(d, id, r, pinged, t);
    case Joining(_) => JoinIsStatement(d, id, r, t);
    case _ =>
  }

  // ---- runs ----

  function AsSeq(s: Option<P.Statement>): seq<P.Statement> {
    if s.Some? then [s.value] else []
  }

  ghost function Executed(s: State, a: Action): Option<P.Statement> {
    match a
    case OpenRoom(room, hardCap, softCap, now) =>
      if hardCap < 1 || softCap < 2 then None else Some(P.Open(room, NewRoom(hardCap, softCap, now)))
    case Run(id, t) =>
      if id in s.requests && Fits(s.requests[id].call, s.requests[id].pc) then StatementOf(id, s.requests[id], t)
          else None
    case _ => None
  }

  /** The statements a run executes, in order. */
  ghost function Trace(s: State, run: seq<Action>): seq<P.Statement> {
    if run == [] then []
    else Trace(s, run[..|run| - 1]) + AsSeq(Executed(Exec(s, run[..|run| - 1]), run[|run| - 1]))
  }

  lemma ActionIsStatement(s: State, a: Action)
    requires WellFormed(s)
    ensures Step(s, a).db == Performed(s.db, Executed(s, a))
  {
    hide Advance, StatementOf, P.Perform;
    match a
    case Run(id, t) =>
      if id in s.requests {
        assert RequestOk(s, id);
        StepIsStatement(s.db, id, s.requests[id], id in s.pings, t);
      }
    case OpenRoom(room, hardCap, softCap, now) => OpenIsStatement(s.db, room, NewRoom(hardCap, softCap, now));
    case _ =>
  }

  lemma OpenIsStatement(d: Db, room: RoomId, newRoom: Room)
    ensures P.Perform(d, P.Open(room, newRoom)) == InsertRoom(d, room, newRoom).0
  {
  }

  lemma OneMore(d: Db, trace: seq<P.Statement>, s: Option<P.Statement>)
    ensures P.PerformAll(d, trace + AsSeq(s)) == Performed(P.PerformAll(d, trace), s)
  {
    hide P.Perform;
    if s.Some? {
      assert (trace + [s.value])[..|trace|] == trace;
    } else {
      assert trace + [] == trace;
    }
  }

  /** The tables a run leaves are those its statements leave. */
  lemma {:induction false} RunIsTrace(s: State, run: seq<Action>)
    requires WellFormed(s)
    ensures Exec(s, run).db == P.PerformAll(s.db, Trace(s, run))
  {
    if run != [] {
      var shorter := run[..|run| - 1];
      RunIsTrace(s, shorter);
      RunKeeps(s, shorter);
      hide Step, Executed, WellFormed, P.PerformAll;
      ActionIsStatement(Exec(s, shorter), run[|run| - 1]);
      OneMore(s.db, Trace(s, shorter), Executed(Exec(s, shorter), run[|run| - 1]));
    }
  }

  /** Take any run of the daemon. Had a prune come before it, and had the same statements followed, then as long as none
      of them is on behalf of a pruned participant or brings one back, all counts at every later reading of the clock
      would be what they are. */
  lemma PruningIsInvisibleToRuns(s: State, room: RoomId, t: Time, run: seq<Action>, elsewhere: RoomId,
                                 quorum: CloseQuorum, now: Time)
    requires WellFormed(s) && P.AllSpare(s.db, PruneStale(s.db, room, t - GHOST_AFTER), t, Trace(s, run)) && now >= t
    ensures
      var kept := RosterOf(Exec(s, run).db, elsewhere);
      var pruned := RosterOf(P.PerformAll(PruneStale(s.db, room, t - GHOST_AFTER), Trace(s, run)), elsewhere);
      var cutoff := now - GHOST_AFTER;
      && |CloseVoters(pruned, now)| == |CloseVoters(kept, now)|
      && quorum.Needed(|Live(pruned, now)|) == quorum.Needed(|Live(kept, now)|)
      && |ExtendVotersSince(pruned, cutoff)| == |ExtendVotersSince(kept, cutoff)|
      && quorum.Needed(|PolledSince(pruned, cutoff)|) == quorum.Needed(|PolledSince(kept, cutoff)|)
  {
    hide *;
    RunIsTrace(s, run);
    P.PruningIsInvisible(s.db, room, t, Trace(s, run), elsewhere, quorum, now);
  }
}
