/** No wakeup is lost: a long-poll that sleeps with no ping pending has nothing to wake up for, except what some
    request still in flight is about to ring for. */
module Wakeup {
  import opened Wrappers
  import opened Lifecycle
  import opened Tables
  import opened Protocol
  import opened Evolution
  import opened Effects
  import opened Claims

  // ---- who still owes a ring ----

  /** Points between the close vote of this request and its ring. */
  predicate HasVotedClose(r: Request) {
    match r.pc
    case Closing(_, _, SwapClosed(_, _, cause)) => cause.Consensus?
    case Closing(_, _, Recheck(cause)) => cause.Consensus?
    case Closing(_, _, step) => step.CountVotes? || step.ClearVotes?
    case Notifying => true
    case _ => false
  }

  /** Points between the extend vote of this request and its ring. */
  predicate HasVotedExtend(pc: Pc) {
    match pc
    case Extending(_, _, step) => step.Announce?
    case Notifying => true
    case _ => false
  }

  /** Whoever owes a ring goes on owing it until it rings; only a close may give up instead, with a conflict. */
  lemma AdvanceOwes(d: Db, id: RequestId, r: Request, pinged: bool, t: Tick)
    requires Fits(r.call, r.pc)
    ensures var next := Advance(d, id, r, pinged, t).1;
      && (HasInserted(r.pc) ==> next.Ring? || (next.Goto? && HasInserted(next.pc)))
      && (HasHalted(r.pc) ==> next.Ring? || (next.Goto? && HasHalted(next.pc)))
      && (HasVotedClose(r) ==> next.Ring? || next.Conflict? || (next.Goto? && HasVotedClose(Request(r.call, next.pc))))
      && (HasVotedExtend(r.pc) ==> next.Ring? || (next.Goto? && HasVotedExtend(next.pc)))
  {
    hide TryExtend, RosterOf, UpdateRoomState;
  }

  // ---- messages ----

  ghost predicate Silent(s: State, id: RequestId) {
    id in s.requests && s.requests[id].pc.Waiting? && id !in s.pings
  }

  /** Past its last look at the inbox. */
  predicate SawEmptyInbox(stage: WaiterStage) {
    stage.YieldOnRoom? || stage.YieldOnClose? || stage.YieldOnExtend? || stage.Parked?
  }

  ghost predicate RingDue(s: State, by': RequestId, room: RoomId) {
    by' in s.requests && s.requests[by'].call.room == room && HasInserted(s.requests[by'].pc)
  }

  ghost predicate InboxCovered(s: State, id: RequestId)
    requires id in s.requests && s.requests[id].pc.Waiting?
  {
    var r := s.requests[id];
    && r.pc.row < s.db.nextRow
    && (OwnRow(s.db, r.pc) ==>
          var cursor := s.db.participants[r.pc.me].cursor;
          && (r.pc.stage.ReadUnread? ==> r.pc.stage.cursor <= cursor)
          && (Silent(s, id) && SawEmptyInbox(r.pc.stage) ==>
                forall k: nat :: cursor < k <= |s.db.messages| && Relevant(s.db.messages, r.call.room, r.pc.me, k) ==>
                  RingDue(s, s.db.messages[k - 1].sentBy, r.call.room)))
  }

  /** Rows that requests remember were there. */
  ghost predicate RowsRemembered(s: State) {
    forall id :: id in s.requests && s.requests[id].pc.Entering? ==> s.requests[id].pc.row < s.db.nextRow
  }

  ghost predicate InboxesCovered(s: State) {
    && RowsRemembered(s)
    && forall id :: id in s.requests && s.requests[id].pc.Waiting? ==> InboxCovered(s, id)
  }

  ghost predicate KeepsOwing(r: Request, next: Next) {
    HasInserted(r.pc) ==> next.Ring? || (next.Goto? && HasInserted(next.pc))
  }

  lemma InboxOther(s: State, id: RequestId, d': Db, next: Next, t: Tick, w: RequestId)
    requires id in s.requests && w in s.requests && w != id && s.requests[w].pc.Waiting? && InboxCovered(s, w)
    requires Evolves(s.db, d') && Appends(s.db, id, s.requests[id], d', next) && KeepsOwing(s.requests[id], next)
    ensures InboxCovered(Apply(s, id, d', next, t), w)
  {
    var s' := Apply(s, id, d', next, t);
    var r := s.requests[w];
    if OwnRow(d', r.pc) && Silent(s', w) && SawEmptyInbox(r.pc.stage) {
      var me := r.pc.me;
      forall k: nat | d'.participants[me].cursor < k <= |d'.messages| && Relevant(d'.messages, r.call.room, me, k)
        ensures RingDue(s', d'.messages[k - 1].sentBy, r.call.room)
      {
        if k <= |s.db.messages| {
          assert d'.messages[k - 1] == s.db.messages[k - 1];
          assert Relevant(s.db.messages, r.call.room, me, k);
          assert RingDue(s, s.db.messages[k - 1].sentBy, r.call.room);
        }
      }
    }
  }

  lemma WaiterLooks(d: Db, id: RequestId, r: Request, pinged: bool, t: Tick)
    requires Fits(r.call, r.pc) && r.pc.Waiting? && Lawful(r.pc)
    ensures var (d', next) := Advance(d, id, r, pinged, t);
      && OnlyRows(d, d') && d'.nextRow == d.nextRow
      && (next.Goto? ==> next.pc.Waiting? && next.pc.me == r.pc.me && next.pc.row == r.pc.row)
      && (next.Goto? && next.pc.stage.ReadUnread? ==>
            d' == d && (r.pc.me in d.participants ==> next.pc.stage.cursor == d.participants[r.pc.me].cursor))
      && (next.Goto? && pinged && r.pc.stage.Parked? ==> next.pc.stage.ReadCursor?)
      && (next.Goto? && SawEmptyInbox(next.pc.stage) ==>
            && d' == d
            && (!SawEmptyInbox(r.pc.stage) && r.pc.me in d.participants ==>
                  && r.pc.stage.ReadUnread?
                  && NextUnread(d.messages, r.call.room, r.pc.me, r.pc.stage.cursor).None?))
  {
  }

  lemma InboxOwn(s: State, id: RequestId, t: Tick)
    requires WellFormed(s) && id in s.requests && s.requests[id].pc.Waiting? && InboxCovered(s, id)
    ensures var s' := Step(s, Run(id, t)); id in s'.requests ==> s'.requests[id].pc.Waiting? && InboxCovered(s', id)
  {
    hide Advance, RequestOk, WellFormed, NextUnread, Fits, Lawful;
    IsLawful(s, id);
    var r := s.requests[id];
    WaiterLooks(s.db, id, r, id in s.pings, t);
    var s' := Step(s, Run(id, t));
    if id in s'.requests && OwnRow(s'.db, r.pc) && Silent(s', id) && SawEmptyInbox(s'.requests[id].pc.stage) {
      var me := r.pc.me;
      forall k: nat | s'.db.participants[me].cursor < k <= |s'.db.messages|
          && Relevant(s'.db.messages, r.call.room, me, k)
        ensures RingDue(s', s'.db.messages[k - 1].sentBy, r.call.room)
      {
        assert RingDue(s, s.db.messages[k - 1].sentBy, r.call.room);
      }
    }
  }

  lemma EntersBefore(d: Db, id: RequestId, r: Request, pinged: bool, t: Tick)
    requires Fits(r.call, r.pc) && !r.pc.Waiting? && RowsNumbered(d) && (r.pc.Entering? ==> r.pc.row < d.nextRow)
    ensures var next := Advance(d, id, r, pinged, t).1;
      && (next.Goto? && next.pc.Entering? ==> next.pc.row < d.nextRow)
      && (next.Goto? && next.pc.Waiting? ==> next.pc.stage.ReadCursor? && next.pc.row < d.nextRow)
  {
    hide TryExtend, Transition, RosterOf, CloseProposed, ExtendProposed, CounterpartIsStale, UpdateRoomState;
  }

  lemma RunInboxes(s: State, id: RequestId, t: Tick)
    requires WellFormed(s) && InboxesCovered(s) && id in s.requests
    ensures InboxesCovered(Step(s, Run(id, t)))
  {
    hide Advance, InboxCovered, RequestOk, Appends, Fits, Lawful, MessagesPlaced, RowsNumbered;
    IsLawful(s, id);
    var r, pinged := s.requests[id], id in s.pings;
    var (d', next) := Advance(s.db, id, r, pinged, t);
    var s' := Step(s, Run(id, t));
    AdvanceKeeps(s.db, id, r, pinged, t);
    AdvanceAppends(s.db, id, r, pinged, t);
    AdvanceOwes(s.db, id, r, pinged, t);
    if r.pc.Waiting? { InboxOwn(s, id, t); } else { EntersBefore(s.db, id, r, pinged, t); }
    forall w | w in s'.requests && s'.requests[w].pc.Waiting? ensures InboxCovered(s', w) {
      if w != id {
        InboxOther(s, id, d', next, t, w);
      } else if !r.pc.Waiting? {
        FreshWaiter(s', w);
      }
    }
  }

  lemma FreshWaiter(s: State, w: RequestId)
    requires w in s.requests && s.requests[w].pc.Waiting?
    requires s.requests[w].pc.stage.ReadCursor? && s.requests[w].pc.row < s.db.nextRow
    ensures InboxCovered(s, w)
  {
  }

  /** Nothing about the tables or the requests that owe rings has changed. */
  lemma InboxQuiet(s: State, s': State, w: RequestId)
    requires w in s.requests && w in s'.requests && s'.requests[w] == s.requests[w] && s.requests[w].pc.Waiting?
    requires InboxCovered(s, w) && s'.pings == s.pings
    requires s'.db == s.db.(rooms := s'.db.rooms)
    requires forall o :: o in s.requests && HasInserted(s.requests[o].pc) ==>
      o in s'.requests && s'.requests[o] == s.requests[o]
    ensures InboxCovered(s', w)
  {
  }

  lemma StepInboxes(s: State, a: Action)
    requires WellFormed(s) && InboxesCovered(s)
    ensures InboxesCovered(Step(s, a))
  {
    hide Advance;
    match a
    case Run(id, t) => if id in s.requests { RunInboxes(s, id, t); }
    case Begin(call) =>
      var s' := Step(s, a);
      NextIdIsFree(s);
      forall w | w in s'.requests && s'.requests[w].pc.Waiting? ensures InboxCovered(s', w) { InboxQuiet(s, s', w); }
    case Disconnect(id) =>
      var s' := Step(s, a);
      if id in s.requests { assert RequestOk(s, id); }
      forall w | w in s'.requests && s'.requests[w].pc.Waiting? ensures InboxCovered(s', w) { InboxQuiet(s, s', w); }
    case OpenRoom(_, _, _, _) =>
      var s' := Step(s, a);
      forall w | w in s'.requests && s'.requests[w].pc.Waiting? ensures InboxCovered(s', w) { InboxQuiet(s, s', w); }
  }

  /** In every run: a parked long-poll with no ping pending, whose row has not been pruned since it resolved it, has no
      unclaimed message in its inbox but those whose senders have inserted and not yet rung. */
  lemma {:induction false} NoLostMessage(run: seq<Action>)
    ensures InboxesCovered(Exec(INIT, run))
  {
    if run != [] {
      RunKeeps(INIT, run[..|run| - 1]);
      NoLostMessage(run[..|run| - 1]);
      StepInboxes(Exec(INIT, run[..|run| - 1]), run[|run| - 1]);
    }
  }

  /** The same, read off for one sleeper. */
  lemma SleeperMissesNothing(s: State, w: RequestId, k: nat)
    requires InboxesCovered(s) && Silent(s, w) && s.requests[w].pc.stage.Parked? && OwnRow(s.db, s.requests[w].pc)
    requires s.db.participants[s.requests[w].pc.me].cursor < k <= |s.db.messages|
    requires Relevant(s.db.messages, s.requests[w].call.room, s.requests[w].pc.me, k)
    ensures RingDue(s, s.db.messages[k - 1].sentBy, s.requests[w].call.room)
  {
    assert InboxCovered(s, w);
  }

  // ---- pauses and closes ----

  /** Past its last look at the room's state. */
  predicate SawOpenRoom(stage: WaiterStage) {
    stage.YieldOnClose? || stage.YieldOnExtend? || stage.Parked?
  }

  ghost predicate HaltDue(s: State, by': RequestId, room: RoomId) {
    by' in s.requests && s.requests[by'].call.room == room && HasHalted(s.requests[by'].pc)
  }

  ghost predicate HaltCovered(s: State, id: RequestId)
    requires id in s.requests && s.requests[id].pc.Waiting?
  {
    var room := s.requests[id].call.room;
    (&& room in s.db.rooms && Silent(s, id) && SawOpenRoom(s.requests[id].pc.stage)
     && (s.db.rooms[room].state.Paused? || s.db.rooms[room].state.Closed?))
    ==> HaltDue(s, s.db.rooms[room].changedBy, room)
  }

  ghost predicate HaltsCovered(s: State) {
    forall id :: id in s.requests && s.requests[id].pc.Waiting? ==> HaltCovered(s, id)
  }

  lemma HaltOther(s: State, id: RequestId, d': Db, next: Next, t: Tick, w: RequestId)
    requires id in s.requests && w in s.requests && w != id && s.requests[w].pc.Waiting? && HaltCovered(s, w)
    requires NoMove(s.db, d') || Moved(s.db, id, s.requests[id], d', next)
    requires HasHalted(s.requests[id].pc) ==> next.Ring? || (next.Goto? && HasHalted(next.pc))
    ensures HaltCovered(Apply(s, id, d', next, t), w)
  {
    var s' := Apply(s, id, d', next, t);
    var room := s.requests[w].call.room;
    if room in d'.rooms && Silent(s', w) {
      assert room in s.db.rooms;
      if !NoMove(s.db, d') {
        var from, to, now, cause :| MovedBy(s.db, id, s.requests[id], d', next, from, to, now, cause);
        hide Edge;
      }
    }
  }

  lemma LooksAtRoom(d: Db, id: RequestId, r: Request, pinged: bool, t: Tick)
    requires Fits(r.call, r.pc) && r.pc.Waiting?
    ensures var (d', next) := Advance(d, id, r, pinged, t);
      next.Goto? ==>
        && next.pc.Waiting?
        && d'.rooms == d.rooms
        && (pinged && r.pc.stage.Parked? ==> next.pc.stage.ReadCursor?)
        && (SawOpenRoom(next.pc.stage) && !SawOpenRoom(r.pc.stage) && r.call.room in d.rooms ==>
              d.rooms[r.call.room].state.Writable())
  {
  }

  lemma StepHalts(s: State, a: Action)
    requires WellFormed(s) && HaltsCovered(s)
    ensures HaltsCovered(Step(s, a))
  {
    var s' := Step(s, a);
    hide Advance;
    match a
    case Run(id, t) =>
      if id in s.requests {
        assert RequestOk(s, id);
        RunHalts(s, id, t);
      }
    case Begin(call) =>
      NextIdIsFree(s);
      forall w | w in s'.requests && s'.requests[w].pc.Waiting? ensures HaltCovered(s', w) { assert HaltCovered(s, w); }
    case Disconnect(id) =>
      if id in s.requests { assert RequestOk(s, id); }
      forall w | w in s'.requests && s'.requests[w].pc.Waiting? ensures HaltCovered(s', w) { assert HaltCovered(s, w); }
    case OpenRoom(room, _, _, _) =>
      forall w | w in s'.requests && s'.requests[w].pc.Waiting? ensures HaltCovered(s', w) { assert HaltCovered(s, w); }
  }

  lemma RunHalts(s: State, id: RequestId, t: Tick)
    requires WellFormed(s) && HaltsCovered(s) && id in s.requests
    ensures HaltsCovered(Step(s, Run(id, t)))
  {
    hide Advance, NoMove, Moved, RequestOk, WellFormed, Fits, Lawful, RowsNumbered;
    IsLawful(s, id);
    var r, pinged := s.requests[id], id in s.pings;
    var (d', next) := Advance(s.db, id, r, pinged, t);
    var s' := Step(s, Run(id, t));
    AdvanceMoves(s.db, id, r, pinged, t);
    AdvanceOwes(s.db, id, r, pinged, t);
    if r.pc.Waiting? { LooksAtRoom(s.db, id, r, pinged, t); } else { WaitersStartAfresh(s.db, id, r, pinged, t); }
    forall w | w in s'.requests && s'.requests[w].pc.Waiting? ensures HaltCovered(s', w) {
      if w != id { HaltOther(s, id, d', next, t, w); } else if r.pc.Waiting? { assert HaltCovered(s, id); }
    }
  }

  lemma WaitersStartAfresh(d: Db, id: RequestId, r: Request, pinged: bool, t: Tick)
    requires Fits(r.call, r.pc) && !r.pc.Waiting?
    ensures var next := Advance(d, id, r, pinged, t).1; next.Goto? && next.pc.Waiting? ==> next.pc.stage.ReadCursor?
  {
    hide TryExtend, Transition, RosterOf, CloseProposed, ExtendProposed, CounterpartIsStale, UpdateRoomState;
  }

  /** In every run: a parked long-poll with no ping pending sleeps in a room that is neither paused nor closed, unless
      the request that paused or closed it has not yet rung. */
  lemma {:induction false} NoLostHalt(run: seq<Action>)
    ensures HaltsCovered(Exec(INIT, run))
  {
    if run != [] {
      RunKeeps(INIT, run[..|run| - 1]);
      NoLostHalt(run[..|run| - 1]);
      StepHalts(Exec(INIT, run[..|run| - 1]), run[|run| - 1]);
    }
  }
}
