/** What every step of every request keeps: the rules by which the tables may change between two looks at them. */
module Evolution {
  import opened Wrappers
  import opened Lifecycle
  import opened Tables
  import opened Protocol

  ghost predicate RoomEvolves(r: Room, r': Room) {
    && r'.quorum == r.quorum && r'.openedCap == r.openedCap && r'.openedAt == r.openedAt && r'.softCap == r.softCap
    && r.hardCap <= r'.hardCap
    && (r.state.Terminal() ==> r'.state.Terminal())
    && (r.state.Archived? ==> r'.state.Archived?)
  }

  ghost predicate RowEvolves(p: Participant, p': Participant) {
    && p'.row == p.row && p'.room == p.room && p'.instance == p.instance
    && p'.creator == p.creator && p'.joinedAt == p.joinedAt
    && p.cursor <= p'.cursor
  }

  /** Rooms stay, caps only grow, ended rooms stay ended, the logs are only appended to, and a row that was there
      before is still under its handle with the same identity and a cursor no lower. */
  ghost predicate Evolves(d: Db, d': Db) {
    && (forall r :: r in d.rooms ==> r in d'.rooms && RoomEvolves(d.rooms[r], d'.rooms[r]))
    && d.messages <= d'.messages
    && d.events <= d'.events
    && d.nextRow <= d'.nextRow
    && d.casts <= d'.casts
    && (forall h :: h in d'.participants && d'.participants[h].row < d.nextRow ==>
          h in d.participants && RowEvolves(d.participants[h], d'.participants[h]))
  }

  lemma EvolvesTransitive(a: Db, b: Db, c: Db)
    requires Evolves(a, b) && Evolves(b, c)
    ensures Evolves(a, c)
  {
  }

  /** A pending state change is an edge of the table, a pending cursor move goes forward. */
  ghost predicate Lawful(pc: Pc) {
    match pc
    case Sending(room, _, Revive(_)) => room.state.Idle? || room.state.Stale?
    case Signalling(room, _, PauseFirst(to, _)) => Edge(room.state, to) && to == Paused
    case Closing(room, _, SwapClosed(to, _, cause)) => Edge(room.state, to) && to == Closed && !cause.Routine?
    case Moving(room, to) => Edge(room.state, to) && to != Closed && !room.state.Terminal()
    case Sweeping(room, SwapSwept(to, _)) =>
        Edge(room.state, to) && to != Closed && to != Paused && room.state != Paused
    case Waiting(_, _, _, SwapCursor(c, k)) => c < k
    case _ => true
  }

  ghost predicate RowsNumbered(d: Db) {
    forall h :: h in d.participants ==> d.participants[h].row < d.nextRow
  }

  ghost predicate MessagesPlaced(d: Db) {
    forall i :: 0 <= i < |d.messages| ==> d.messages[i].room in d.rooms
  }

  ghost predicate RequestOk(s: State, id: RequestId)
    requires id in s.requests
  {
    && id < |s.calls|
    && s.calls[id] == s.requests[id].call
    && Fits(s.requests[id].call, s.requests[id].pc)
    && Lawful(s.requests[id].pc)
    && SnapshotOk(s.db, s.requests[id])
  }

  ghost predicate WellFormed(s: State) {
    && RowsNumbered(s.db)
    && MessagesPlaced(s.db)
    && forall id :: id in s.requests ==> RequestOk(s, id)
  }

  lemma IsLawful(s: State, id: RequestId)
    requires WellFormed(s) && id in s.requests
    ensures var r := s.requests[id]; RequestOk(s, id) && Fits(r.call, r.pc) && Lawful(r.pc) && RowsNumbered(s.db)
  {
    hide RowsNumbered, MessagesPlaced, Lawful, Fits, SnapshotOk;
  }

  lemma InitIsWellFormed()
    ensures WellFormed(INIT)
  {
  }

  /** Request names are never given out twice. */
  lemma NextIdIsFree(s: State)
    requires WellFormed(s)
    ensures |s.calls| !in s.requests
  {
    forall id | id in s.requests ensures id < |s.calls| { assert RequestOk(s, id); }
  }

  // ---- one statement at a time ----

  lemma UpdateEvolves(d: Db, room: RoomId, from: RoomState, to: RoomState, now: Time, cause: Cause, mover: RequestId)
    requires Edge(from, to)
    ensures Evolves(d, UpdateRoomState(d, room, from, to, now, cause, mover).0)
  {
    if from.Terminal() { TerminalStatesHold(from, to); }
  }

  /** Rewriting one row without touching its identity or lowering its cursor. */
  lemma RewriteEvolves(d: Db, h: Handle, p: Participant)
    requires RowsNumbered(d) && h in d.participants && RowEvolves(d.participants[h], p)
    ensures Evolves(d, SetParticipant(d, h, p)) && RowsNumbered(SetParticipant(d, h, p))
  {
  }

  lemma AppendEvolves(d: Db, m: Message)
    requires RowsNumbered(d)
    ensures Evolves(d, Append(d, m)) && RowsNumbered(Append(d, m))
  {
  }

  lemma VoteEvolves(d: Db, h: Handle, at: Time, voter: RequestId)
    requires RowsNumbered(d)
    ensures Evolves(d, CastCloseVote(d, h, at, voter)) && RowsNumbered(CastCloseVote(d, h, at, voter))
    ensures Evolves(d, CastExtendVote(d, h, at, voter)) && RowsNumbered(CastExtendVote(d, h, at, voter))
  {
    if h in d.participants {
      RewriteEvolves(d, h, d.participants[h].(wantsClose := Some(Vote(at, voter, d.casts))));
      RewriteEvolves(d, h, d.participants[h].(wantsExtend := Some(Vote(at, voter, d.casts)), lastPollAt := at));
    }
  }

  lemma ClearEvolves(d: Db, room: RoomId)
    requires RowsNumbered(d)
    ensures Evolves(d, ClearCloseVotes(d, room)) && RowsNumbered(ClearCloseVotes(d, room))
    ensures Evolves(d, ClearExtendVotes(d, room)) && RowsNumbered(ClearExtendVotes(d, room))
  {
  }

  lemma RetractEvolves(d: Db, h: Handle)
    requires RowsNumbered(d)
    ensures Evolves(d, RetractCloseVote(d, h)) && RowsNumbered(RetractCloseVote(d, h))
    ensures Evolves(d, ClearExtendVote(d, h)) && RowsNumbered(ClearExtendVote(d, h))
  {
    if h in d.participants {
      RewriteEvolves(d, h, d.participants[h].(wantsClose := None));
      RewriteEvolves(d, h, d.participants[h].(wantsExtend := None));
    }
  }

  lemma TouchEvolves(d: Db, h: Handle, now: Time)
    requires RowsNumbered(d)
    ensures Evolves(d, TouchLastPoll(d, h, now)) && RowsNumbered(TouchLastPoll(d, h, now))
  {
    if h in d.participants { RewriteEvolves(d, h, d.participants[h].(lastPollAt := now)); }
  }

  lemma InsertEvolves(d: Db, h: Handle, p: Participant)
    requires RowsNumbered(d)
    ensures var d' := InsertParticipant(d, h, p).0; Evolves(d, d') && RowsNumbered(d')
  {
  }

  lemma RaiseEvolves(d: Db, room: RoomId, bump: Bump)
    requires RowsNumbered(d) && room in d.rooms
    ensures Evolves(d, RaiseCap(d, room, bump)) && RowsNumbered(RaiseCap(d, room, bump))
  {
  }

  lemma ExtendEvolves(d: Db, room: RoomId, voter: Handle, now: Time, cutoff: Time, quorum: CloseQuorum,
                      request: RequestId)
    requires RowsNumbered(d) && room in d.rooms
    ensures var d' := TryExtend(d, room, voter, now, cutoff, quorum, request).0; Evolves(d, d') && RowsNumbered(d')
  {
    var voted := CastExtendVote(d, voter, now, request);
    VoteEvolves(d, voter, now, request);
    var bump := Bump(RosterOf(voted, room), cutoff, voted.casts);
    RaiseEvolves(voted, room, bump);
    var raised := RaiseCap(voted, room, bump);
    ClearEvolves(raised, room);
    EvolvesTransitive(d, voted, raised);
    EvolvesTransitive(d, raised, ClearExtendVotes(raised, room));
  }

  // ---- one handler at a time ----

  ghost predicate Keeps(d: Db, call: Call, d': Db, next: Next) {
    && Evolves(d, d')
    && RowsNumbered(d')
    && (next.Goto? ==> Fits(call, next.pc) && Lawful(next.pc))
  }

  lemma SendKeeps(d: Db, id: RequestId, call: Call, room: Room, me: Handle, step: SendStep, t: Tick)
    requires RowsNumbered(d) && call.op.Send? && Lawful(Sending(room, me, step))
    ensures var (d', next) := SendNext(d, id, call, room, me, step, t); Keeps(d, call, d', next)
  {
    match step
    case InsertCapped => AppendEvolves(d, Message(call.room, me, call.op.to, Msg, call.op.fromHuman, t.now, id));
    case DropCloseVote(_) => RetractEvolves(d, me);
    case DropExtendVote(_) => RetractEvolves(d, me);
    case Revive(now) =>
      assert Transition(room.state, OnMessage) == Ok(Active);
      UpdateEvolves(d, call.room, room.state, Active, now, Routine, id);
    case _ =>
  }

  lemma SignalKeeps(d: Db, id: RequestId, call: Call, room: Room, me: Handle, step: SignalStep)
    requires RowsNumbered(d) && Fits(call, Signalling(room, me, step)) && Lawful(Signalling(room, me, step))
    ensures var (d', next) := SignalNext(d, id, call, room, me, step); Keeps(d, call, d', next)
  {
    if step.PauseFirst? { UpdateEvolves(d, call.room, room.state, step.to, step.now, Routine, id); }
  }

  lemma CloseKeeps(d: Db, id: RequestId, call: Call, room: Room, me: Handle, step: CloseStep)
    requires RowsNumbered(d) && call.op.Close? && Lawful(Closing(room, me, step))
    ensures var (d', next) := CloseNext(d, id, call, room, me, step); Keeps(d, call, d', next)
  {
    match step
    case TouchCloser(now) => TouchEvolves(d, me, now);
    case CastVote(now) => VoteEvolves(d, me, now, id);
    case SwapClosed(to, now, cause) => UpdateEvolves(d, call.room, room.state, to, now, cause, id);
    case ClearVotes => ClearEvolves(d, call.room);
    case _ =>
  }

  lemma ExtendKeeps(d: Db, id: RequestId, call: Call, room: Room, me: Handle, step: ExtendStep, t: Tick)
    requires RowsNumbered(d) && call.op.Extend?
    ensures var (d', next) := ExtendNext(d, id, call, room, me, step, t); Keeps(d, call, d', next)
  {
    var (d', next) := ExtendNext(d, id, call, room, me, step, t);
    assert Evolves(d, d') && RowsNumbered(d') by {
      match step
      case VoteAndCount =>
        if call.room in d.rooms {
          hide TryExtend;
          ExtendEvolves(d, call.room, me, t.now, t.now - GHOST_AFTER, room.quorum, id);
          assert d' == TryExtend(d, call.room, me, t.now, t.now - GHOST_AFTER, room.quorum, id).0;
        }
      case Announce(now) => AppendEvolves(d, Message(call.room, me, None, ExtendNotice, false, now, id));
    }
  }

  lemma WaitKeeps(d: Db, call: Call, room: Room, me: Handle, row: nat, step: WaitStep, t: Tick)
    requires RowsNumbered(d) && call.op.Wait?
    ensures var (d', next) := WaitNext(d, call, room, me, row, step, t); Keeps(d, call, d', next)
  {
    match step
    case Refresh => TouchEvolves(d, me, t.now);
    case TouchPoll(_) => TouchEvolves(d, me, t.now);
    case _ => assert WaitNext(d, call, room, me, row, step, t).0 == d;
  }

  lemma WaiterKeeps(d: Db, call: Call, me: Handle, row: nat, zero: bool, stage: WaiterStage, pinged: bool, t: Tick)
    requires RowsNumbered(d) && call.op.Wait? && Lawful(Waiting(me, row, zero, stage))
    ensures var (d', next) := WaiterNext(d, call, me, row, zero, stage, pinged, t); Keeps(d, call, d', next)
  {
    if stage.SwapCursor? {
      if me in d.participants {
        var p := d.participants[me];
        if p.cursor == stage.cursor {
          RewriteEvolves(d, me, p.(cursor := stage.seqno, claimed := p.claimed + [stage.seqno]));
        }
      }
    } else {
      assert WaiterNext(d, call, me, row, zero, stage, pinged, t).0 == d;
    }
  }

  lemma JoinKeeps(d: Db, id: RequestId, call: Call, step: JoinStep, t: Tick)
    requires RowsNumbered(d) && call.op.Join?
    ensures var (d', next) := JoinNext(d, id, call, step, t); Keeps(d, call, d', next)
  {
    match step
    case InsertRow(start, _, h) =>
      InsertEvolves(d, h, Participant(call.room, call.instance, t.now, start, None, None, 0, id, start, []));
    case _ => assert JoinNext(d, id, call, step, t).0 == d;
  }

  lemma SweepKeeps(d: Db, id: RequestId, call: Call, room: Room, step: SweepStep)
    requires RowsNumbered(d) && call.op.Sweep? && Lawful(Sweeping(room, step))
    ensures var (d', next) := SweepNext(d, id, call, room, step); Keeps(d, call, d', next)
  {
    if step.SwapSwept? { UpdateEvolves(d, call.room, room.state, step.to, step.now, Routine, id); }
  }

  lemma EntryKeeps(d: Db, call: Call, room: Room, me: Handle, t: Tick)
    ensures var next := LoadStep(d, call, t); next.Goto? ==> Fits(call, next.pc) && Lawful(next.pc)
    ensures me in d.participants ==>
      var next := Found(d, call, room, me, t); next.Goto? ==> Fits(call, next.pc) && Lawful(next.pc)
  {
    assert Transition(room.state, OnPause).Ok? ==> Edge(room.state, Transition(room.state, OnPause).value);
    assert Transition(room.state, OnWake).Ok? ==> Edge(room.state, Transition(room.state, OnWake).value);
    assert Transition(room.state, OnClose).Ok? ==> Edge(room.state, Transition(room.state, OnClose).value);
  }

  lemma PruneEvolves(d: Db, room: RoomId, cutoff: Time)
    requires RowsNumbered(d)
    ensures Evolves(d, PruneStale(d, room, cutoff)) && RowsNumbered(PruneStale(d, room, cutoff))
  {
  }

  lemma AdvanceKeeps(d: Db, id: RequestId, r: Request, pinged: bool, t: Tick)
    requires RowsNumbered(d) && Fits(r.call, r.pc) && Lawful(r.pc)
    ensures var (d', next) := Advance(d, id, r, pinged, t); Keeps(d, r.call, d', next)
  {
    hide SendNext, SignalNext, CloseNext, ExtendNext, WaitNext, WaiterNext, JoinNext, SweepNext, LoadStep, Found;
    match r.pc
    case LoadRoom => EntryKeeps(d, r.call, NewRoom(0, 0, 0), "", t);
    case FindInstance(room) =>
      var me := ByInstance(d, r.call.room, r.call.instance);
      if me.Some? { EntryKeeps(d, r.call, room, me.value, t); }
    case FindHandle(room) => EntryKeeps(d, r.call, room, r.call.instance, t);
    case Pruning => PruneEvolves(d, r.call.room, t.now - GHOST_AFTER);
    case Sending(room, me, step) => SendKeeps(d, id, r.call, room, me, step, t);
    case Signalling(room, me, step) => SignalKeeps(d, id, r.call, room, me, step);
    case Closing(room, me, step) => CloseKeeps(d, id, r.call, room, me, step);
    case Extending(room, me, step) => ExtendKeeps(d, id, r.call, room, me, step, t);
    case Moving(room, to) => UpdateEvolves(d, r.call.room, room.state, to, t.now, Routine, id);
    case Entering(room, me, row, step) => WaitKeeps(d, r.call, room, me, row, step, t);
    case Waiting(me, row, zero, stage) => WaiterKeeps(d, r.call, me, row, zero, stage, pinged, t);
    case Joining(step) => JoinKeeps(d, id, r.call, step, t);
    case Sweeping(room, step) => SweepKeeps(d, id, r.call, room, step);
    case _ =>
  }

  // ---- points whose step writes at most participants' rows ----

  predicate Quiet(pc: Pc) {
    match pc
    case Sending(_, _, _) => false
    case Signalling(_, _, _) => false
    case Closing(_, _, _) => false
    case Extending(_, _, _) => false
    case Moving(_, _) => false
    case Sweeping(_, _) => false
    case _ => true
  }

  ghost predicate OnlyRows(d: Db, d': Db) {
    d'.rooms == d.rooms && d'.events == d.events && d'.messages == d.messages && d'.casts == d.casts
  }

  lemma JoinQuiet(d: Db, id: RequestId, call: Call, step: JoinStep, t: Tick)
    requires call.op.Join?
    ensures OnlyRows(d, JoinNext(d, id, call, step, t).0)
  {
  }

  lemma WaitQuiet(d: Db, call: Call, room: Room, me: Handle, row: nat, step: WaitStep, t: Tick)
    requires call.op.Wait?
    ensures OnlyRows(d, WaitNext(d, call, room, me, row, step, t).0)
  {
  }

  lemma WaiterQuiet(d: Db, call: Call, me: Handle, row: nat, zero: bool, stage: WaiterStage, pinged: bool, t: Tick)
    ensures OnlyRows(d, WaiterNext(d, call, me, row, zero, stage, pinged, t).0)
  {
  }

  lemma AdvanceQuiet(d: Db, id: RequestId, r: Request, pinged: bool, t: Tick)
    requires Fits(r.call, r.pc) && Quiet(r.pc)
    ensures OnlyRows(d, Advance(d, id, r, pinged, t).0)
  {
    hide WaitNext, WaiterNext, JoinNext, LoadStep, Found;
    match r.pc
    case Entering(room, me, row, step) => WaitQuiet(d, r.call, room, me, row, step, t);
    case Waiting(me, row, zero, stage) => WaiterQuiet(d, r.call, me, row, zero, stage, pinged, t);
    case Joining(step) => JoinQuiet(d, id, r.call, step, t);
    case _ =>
  }

  // ---- what a step adds to the message log ----

  /** Points between a message of the request landing and the ring that announces it. */
  predicate HasInserted(pc: Pc) {
    match pc
    case Sending(_, _, step) => !step.CheckRecipient? && !step.InsertCapped?
    case Notifying => true
    case _ => false
  }

  /** Points between a pause or close of the room by the request and its ring. */
  predicate HasHalted(pc: Pc) {
    match pc
    case Signalling(_, _, step) => step.InsertSignal?
    case Closing(_, _, step) => step.ClearVotes?
    case Notifying => true
    case _ => false
  }

  ghost predicate Appends(d: Db, id: RequestId, r: Request, d': Db, next: Next) {
    || d'.messages == d.messages
    || exists m :: AppendsOne(d, id, r, d', next, m)
  }

  ghost predicate AppendsOne(d: Db, id: RequestId, r: Request, d': Db, next: Next, m: Message) {
    && d'.messages == d.messages + [m]
    && d' == Append(d, m)
    && m.room == r.call.room && m.sentBy == id
    && next.Goto? && HasInserted(next.pc)
    && (r.pc.Sending? || r.pc.Signalling? || r.pc.Extending?)
    && (m.kind.Msg? ==> r.pc.Sending? && CountCapped(d.messages, m.room) < r.pc.room.hardCap)
  }

  /** A step appends at most one message, to its own room, and then still owes a ring; a message that counts is
      appended only below the cap the request has read. */
  lemma AdvanceAppends(d: Db, id: RequestId, r: Request, pinged: bool, t: Tick)
    requires Fits(r.call, r.pc)
    ensures var (d', next) := Advance(d, id, r, pinged, t); Appends(d, id, r, d', next)
  {
    var (d', next) := Advance(d, id, r, pinged, t);
    if Quiet(r.pc) { AdvanceQuiet(d, id, r, pinged, t); }
    hide WaitNext, WaiterNext, JoinNext, LoadStep, Found;
    match r.pc
    case Sending(room, me, InsertCapped) =>
      var m := Message(r.call.room, me, r.call.op.to, Msg, r.call.op.fromHuman, t.now, id);
      if AppendCapped(d, m, room.hardCap).1 { assert AppendsOne(d, id, r, d', next, m); }
    case Signalling(_, me, InsertSignal(now)) =>
      assert AppendsOne(d, id, r, d', next, Message(r.call.room, me, None, r.call.op.kind, false, now, id));
    case Extending(_, me, Announce(now)) =>
      assert AppendsOne(d, id, r, d', next, Message(r.call.room, me, None, ExtendNotice, false, now, id));
    case _ => assert d'.messages == d.messages;
  }

  // ---- snapshots ----

  function SnapshotOf(pc: Pc): Option<Room> {
    match pc
    case FindInstance(room) => Some(room)
    case FindHandle(room) => Some(room)
    case Sending(room, _, _) => Some(room)
    case Signalling(room, _, _) => Some(room)
    case Closing(room, _, _) => Some(room)
    case Extending(room, _, _) => Some(room)
    case Moving(room, _) => Some(room)
    case Entering(room, _, _, _) => Some(room)
    case Sweeping(room, _) => Some(room)
    case _ => None
  }

  /** What the request has read of its room may be old, but the room has since changed by the rules only. */
  ghost predicate SnapshotOk(d: Db, r: Request) {
    SnapshotOf(r.pc).Some? ==> r.call.room in d.rooms && RoomEvolves(SnapshotOf(r.pc).value, d.rooms[r.call.room])
  }

  /** A step reads the room once, at the start, and from then on carries what it read. */
  lemma AdvanceCarries(d: Db, id: RequestId, r: Request, pinged: bool, t: Tick)
    requires Fits(r.call, r.pc)
    ensures var next := Advance(d, id, r, pinged, t).1;
      next.Goto? && SnapshotOf(next.pc).Some? ==>
        if r.pc.LoadRoom? then r.call.room in d.rooms && SnapshotOf(next.pc).value == d.rooms[r.call.room]
        else SnapshotOf(r.pc) == SnapshotOf(next.pc)
  {
    hide RosterOf, CloseVoters, Live, TryExtend, ComputeTimeEvent, UpdateRoomState, AppendCapped, PruneStale,
        LatestFromOther, NextUnread, RecentUpTo, CurrentSeq;
  }

  /** The participant a request acts for. */
  function HandleOf(pc: Pc): Option<Handle> {
    match pc
    case Sending(_, me, _) => Some(me)
    case Signalling(_, me, _) => Some(me)
    case Closing(_, me, _) => Some(me)
    case Extending(_, me, _) => Some(me)
    case Entering(_, me, _, _) => Some(me)
    case Waiting(me, _, _, _) => Some(me)
    case _ => None
  }

  /** A request finds its participant once, among the rows of its room, and then keeps acting for it. */
  lemma AdvanceActsFor(d: Db, id: RequestId, r: Request, pinged: bool, t: Tick)
    requires Fits(r.call, r.pc)
    ensures var next := Advance(d, id, r, pinged, t).1;
      next.Goto? && HandleOf(next.pc).Some? ==>
        if HandleOf(r.pc).Some? then HandleOf(r.pc) == HandleOf(next.pc)
        else
          var me := HandleOf(next.pc).value;
          && HasHandle(d, r.call.room, me)
          && if r.pc.FindInstance? then ByInstance(d, r.call.room, r.call.instance) == Some(me)
             else r.pc.FindHandle? && me == r.call.instance
  {
    hide TryExtend, Transition, RosterOf, CloseProposed, ExtendProposed, CounterpartIsStale;
  }

  // ---- any action, any run ----

  /** Nobody asks for a prune. */
  ghost predicate NoPrune(run: seq<Action>) {
    forall i :: 0 <= i < |run| && run[i].Begin? ==> !run[i].call.op.Prune?
  }

  lemma SnapshotStays(d: Db, r: Request, d': Db)
    requires SnapshotOk(d, r) && Evolves(d, d')
    ensures SnapshotOk(d', r)
  {
  }

  lemma PlacedStays(d: Db, id: RequestId, r: Request, d': Db, next: Next)
    requires MessagesPlaced(d) && Evolves(d, d') && Appends(d, id, r, d', next) && r.call.room in d.rooms
    ensures MessagesPlaced(d')
  {
  }

  lemma ApplyKeeps(s: State, id: RequestId, d': Db, next: Next, t: Tick)
    requires WellFormed(s) && id in s.requests
    requires Keeps(s.db, s.requests[id].call, d', next) && MessagesPlaced(d')
    requires next.Goto? ==> SnapshotOk(d', Request(s.requests[id].call, next.pc))
    ensures WellFormed(Apply(s, id, d', next, t))
  {
    var s' := Apply(s, id, d', next, t);
    forall i | i in s'.requests ensures RequestOk(s', i) {
      assert RequestOk(s, i);
      if i != id { SnapshotStays(s.db, s.requests[i], d'); }
    }
  }

  lemma RunStepKeeps(s: State, id: RequestId, t: Tick)
    requires WellFormed(s) && id in s.requests
    ensures WellFormed(Step(s, Run(id, t))) && Evolves(s.db, Step(s, Run(id, t)).db)
  {
    assert RequestOk(s, id);
    var r := s.requests[id];
    var (d', next) := Advance(s.db, id, r, id in s.pings, t);
    hide Advance;
    AdvanceKeeps(s.db, id, r, id in s.pings, t);
    AdvanceAppends(s.db, id, r, id in s.pings, t);
    AdvanceCarries(s.db, id, r, id in s.pings, t);
    SnapshotStays(s.db, r, d');
    if d'.messages != s.db.messages { PlacedStays(s.db, id, r, d', next); }
    ApplyKeeps(s, id, d', next, t);
  }

  /** Every step of the daemon keeps the rules. */
  lemma StepKeeps(s: State, a: Action)
    requires WellFormed(s)
    ensures WellFormed(Step(s, a)) && Evolves(s.db, Step(s, a).db)
  {
    hide Advance;
    match a
    case Run(id, t) => if id in s.requests { RunStepKeeps(s, id, t); }
    case OpenRoom(room, hardCap, softCap, now) =>
      var s' := Step(s, a);
      forall i | i in s'.requests ensures RequestOk(s', i) {
        assert RequestOk(s, i);
        SnapshotStays(s.db, s.requests[i], s'.db);
      }
    case Begin(call) =>
      var s' := Step(s, a);
      forall i | i in s'.requests ensures RequestOk(s', i) {
        assert i != |s.calls| ==> RequestOk(s, i);
      }
    case Disconnect(id) =>
      var s' := Step(s, a);
      forall i | i in s'.requests ensures RequestOk(s', i) { assert RequestOk(s, i); }
  }

  lemma ExecSplits(run: seq<Action>, shorter: seq<Action>, a: Action)
    requires run == shorter + [a]
    ensures Exec(INIT, run) == Step(Exec(INIT, shorter), a) && run[|run| - 1] == a
    ensures forall n :: 0 <= n <= |shorter| ==> shorter[..n] == run[..n]
    ensures run[..|run|] == run && shorter[..|shorter|] == shorter
  {
    hide Step;
    assert run[..|run| - 1] == shorter;
  }

  /** Between any two moments of any run the tables have changed by the rules only. */
  lemma {:induction false} RunKeeps(s: State, run: seq<Action>)
    requires WellFormed(s)
    ensures WellFormed(Exec(s, run)) && Evolves(s.db, Exec(s, run).db)
  {
    if run != [] {
      var before := Exec(s, run[..|run| - 1]);
      RunKeeps(s, run[..|run| - 1]);
      StepKeeps(before, run[|run| - 1]);
      EvolvesTransitive(s.db, before.db, Exec(s, run).db);
    }
  }
}
