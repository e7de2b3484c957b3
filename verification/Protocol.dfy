/** The daemon as a machine that runs any number of requests at once. A step runs one request up to and including
    its next SQL statement, transaction or hub operation; between two steps anything else may happen, so a request
    goes on with values that may have grown stale. */
module Protocol {
  import opened Wrappers
  import opened Lifecycle
  import opened Tables
  import Identity

  datatype Op =
    | Join(prefix: string)
    | Send(to: Option<Handle>, fromHuman: bool)
    | Signal(kind: Kind)
    | Close(force: bool)
    | Extend
    | Pause
    | Wake
    | Wait(patient: bool)  // patient: the long-poll cap is above zero
    | Prune
    | Sweep

  datatype Call = Call(op: Op, room: RoomId, instance: string)

  datatype SendStep =
    | CheckRecipient
    | InsertCapped
    | DropCloseVote(now: Time)
    | DropExtendVote(now: Time)
    | TouchActivity(now: Time)
    | Revive(now: Time)

  datatype SignalStep =
    | PauseFirst(to: RoomState, now: Time)
    | InsertSignal(now: Time)

  datatype CloseStep =
    | TouchCloser(now: Time)
    | CastVote(now: Time)
    | CountVotes(now: Time)
    | SwapClosed(to: RoomState, now: Time, cause: Cause)
    | Recheck(cause: Cause)
    | ClearVotes

  datatype ExtendStep =
    | VoteAndCount
    | Announce(now: Time)

  datatype WaitStep =
    | Refresh
    | CheckCounterpart
    | ReadAwaySignal
    | CheckStale
    | CheckClose
    | CheckExtend
    | TouchPoll(zero: bool)
    | Subscribe(zero: bool)

  /** Where a subscribed waiter is. `saw...` (history) is the roster its last vote check read. */
  datatype WaiterStage =
    | ReadCursor
    | ReadUnread(cursor: nat)
    | SwapCursor(cursor: nat, seqno: nat)
    | YieldOnRoom
    | YieldOnClose
    | YieldOnExtend(sawClose: Sighting)
    | Parked(sawClose: Sighting, sawExtend: Sighting)

  /** `row` (history) is the row whose cursor bounds the answer. */
  datatype JoinStep =
    | ReadHead
    | FindRow(start: nat)
    | FindRowByHandle(start: nat)
    | ListRows(start: nat, attempt: nat)
    | InsertRow(start: nat, attempt: nat, handle: Handle)
    | Refetch(start: nat, attempt: nat)
    | ReadJoinedCursor(start: nat, handle: Handle)
    | ReadRecent(handle: Handle, resumed: bool, upTo: nat, row: Option<nat>)

  datatype SweepStep = ReadPolls(now: Time) | SwapSwept(to: RoomState, now: Time)

  /** The point a request has reached, with what it has read and still uses. */
  datatype Pc =
    | LoadRoom
    | FindInstance(room: Room)
    | FindHandle(room: Room)
    | Sending(room: Room, me: Handle, send: SendStep)
    | Signalling(room: Room, me: Handle, signal: SignalStep)
    | Closing(room: Room, me: Handle, close: CloseStep)
    | Extending(room: Room, me: Handle, extend: ExtendStep)
    | Moving(room: Room, to: RoomState)
    | Entering(room: Room, me: Handle, row: nat, enter: WaitStep)
    | Waiting(me: Handle, row: nat, zero: bool, stage: WaiterStage)
    | Joining(join: JoinStep)
    | Pruning
    | Sweeping(room: Room, sweep: SweepStep)
    | Notifying

  datatype Request = Request(call: Call, pc: Pc)

  datatype JoinAnswer = JoinAnswer(
    id: RequestId, room: RoomId, instance: string, handle: Handle, resumed: bool, recent: seq<nat>,
    row: Option<nat>)

  /** What the world decides about one step: the clock reading, whether a deadline has passed, whether further pings
      are queued behind the one received, and the session suffixes drawn for a new handle. */
  datatype Tick = Tick(now: Time, expired: bool, morePings: bool, candidates: seq<string>)

  datatype Next =
    | Goto(pc: Pc)
    | Ring                       // notify the room, then answer
    | Finish                     // answer
    | Joined(answer: JoinAnswer)
    | Conflict(counted: Sighting)  // answer 409 although the votes were enough, without a notify

  const MAX_ATTEMPTS := 64
  const RECENT_MESSAGE_LIMIT := 50

  predicate Admits(op: Op, state: RoomState) {
    match op
    case Send(_, _) => state.Writable()
    case Signal(_) => state.Writable()
    case Extend => state.Writable()
    case Close(_) => !state.Terminal()
    case _ => true
  }

  ghost function LoadStep(d: Db, call: Call, t: Tick): Next {
    if call.room !in d.rooms then Finish
    else
      var room := d.rooms[call.room];
      if !Admits(call.op, room.state) then Finish
      else if call.op.Join? then Goto(Joining(ReadHead))
      else if call.op.Prune? then Goto(Pruning)
      else if call.op.Sweep? then (if room.state.Archived? then Finish else Goto(Sweeping(room, ReadPolls(t.now))))
      else Goto(FindInstance(room))
  }

  /** What a handler does between finding its caller's row and its next statement. */
  ghost function Found(d: Db, call: Call, room: Room, me: Handle, t: Tick): Next
    requires me in d.participants
  {
    match call.op
    case Send(to, _) => Goto(Sending(room, me, if to.Some? then CheckRecipient else InsertCapped))
    case Signal(kind) =>
      if kind.BlockerRealWork? then
        match Transition(room.state, OnPause)
        case Ok(to) => Goto(Signalling(room, me, PauseFirst(to, t.now)))
        case Err(_) => Finish
      else if IsSentinel(kind) then Goto(Signalling(room, me, InsertSignal(t.now)))
      else Finish
    case Close(force) => if force then StartClosing(room, me, t.now, Forced)
        else Goto(Closing(room, me, TouchCloser(t.now)))
    case Extend => Goto(Extending(room, me, VoteAndCount))
    case Pause => StartMoving(room, OnPause)
    case Wake => StartMoving(room, OnWake)
    case Wait(_) => Goto(Entering(room, me, d.participants[me].row, Refresh))
    case _ => Finish
  }

  function StartMoving(room: Room, event: LifecycleEvent): Next {
    match Transition(room.state, event)
    case Ok(to) => Goto(Moving(room, to))
    case Err(_) => Finish
  }

  /** A refused transition after a vote would be a 409 too; the guard on entry leaves no state that refuses. */
  function StartClosing(room: Room, me: Handle, now: Time, cause: Cause): Next {
    match Transition(room.state, OnClose)
    case Ok(to) => Goto(Closing(room, me, SwapClosed(to, now, cause)))
    case Err(_) => if cause.Consensus? then Conflict(cause.sighting) else Finish
  }

  ghost function SendNext(d: Db, id: RequestId, call: Call, room: Room, me: Handle, step: SendStep, t: Tick): (Db, Next)
    requires call.op.Send?
  {
    match step
    case CheckRecipient =>
      (d, if call.op.to.Some? && HasHandle(d, call.room, call.op.to.value) then Goto(Sending(room, me, InsertCapped))
       else Finish)
    case InsertCapped =>
      var m := Message(call.room, me, call.op.to, Msg, call.op.fromHuman, t.now, id);
      var (d', landed) := AppendCapped(d, m, room.hardCap);
      (d', if landed then Goto(Sending(room, me, DropCloseVote(t.now))) else Finish)
    case DropCloseVote(now) => (RetractCloseVote(d, me), Goto(Sending(room, me, DropExtendVote(now))))
    case DropExtendVote(now) => (ClearExtendVote(d, me), Goto(Sending(room, me, TouchActivity(now))))
    case TouchActivity(now) =>
      (TouchLastActivity(d, call.room, now),
       if room.state.Idle? || room.state.Stale? then Goto(Sending(room, me, Revive(now))) else Goto(Notifying))
    case Revive(now) =>
      var (d', _) := UpdateRoomState(d, call.room, room.state, Active, now, Routine, id);
      (d', Goto(Notifying))
  }

  ghost function SignalNext(d: Db, id: RequestId, call: Call, room: Room, me: Handle, step: SignalStep): (Db, Next)
    requires call.op.Signal?
  {
    match step
    case PauseFirst(to, now) =>
      var (d', changed) := UpdateRoomState(d, call.room, room.state, to, now, Routine, id);
      (d', if changed then Goto(Signalling(room, me, InsertSignal(now))) else Finish)
    case InsertSignal(now) =>
      (Append(d, Message(call.room, me, None, call.op.kind, false, now, id)), Goto(Notifying))
  }

  ghost function CloseNext(d: Db, id: RequestId, call: Call, room: Room, me: Handle, step: CloseStep): (Db, Next) {
    match step
    case TouchCloser(now) => (TouchLastPoll(d, me, now), Goto(Closing(room, me, CastVote(now))))
    case CastVote(now) => (CastCloseVote(d, me, now, id), Goto(Closing(room, me, CountVotes(now))))
    case CountVotes(now) =>
      var roster := RosterOf(d, call.room);
      (d, if |CloseVoters(roster, now)| >= room.quorum.Needed(|Live(roster, now)|)
          then StartClosing(room, me, now, Consensus(Sighting(roster, now)))
          else Goto(Notifying))
    case SwapClosed(to, now, cause) =>
      var (d', changed) := UpdateRoomState(d, call.room, room.state, to, now, cause, id);
      (d', Goto(Closing(room, me, if changed then ClearVotes else Recheck(cause))))
    case Recheck(cause) =>
      (d, if call.room in d.rooms && d.rooms[call.room].state.Terminal() then Goto(Closing(room, me, ClearVotes))
          else if cause.Consensus? then Conflict(cause.sighting) else Finish)
    case ClearVotes => (ClearCloseVotes(d, call.room), Goto(Notifying))
  }

  ghost function ExtendNext(d: Db, id: RequestId, call: Call, room: Room, me: Handle, step: ExtendStep, t: Tick)
    : (Db, Next)
  {
    match step
    case VoteAndCount =>
      if call.room !in d.rooms then (d, Finish)
      else
        var (d', outcome) := TryExtend(d, call.room, me, t.now, t.now - GHOST_AFTER, room.quorum, id);
        (d', if outcome.Extended? then Goto(Extending(room, me, Announce(t.now))) else Goto(Notifying))
    case Announce(now) =>
      (Append(d, Message(call.room, me, None, ExtendNotice, false, now, id)), Goto(Notifying))
  }

  ghost function WaitNext(d: Db, call: Call, room: Room, me: Handle, row: nat, step: WaitStep, t: Tick): (Db, Next)
    requires call.op.Wait?
  {
    var impatient := !call.op.patient;
    var roster := RosterOf(d, call.room);
    match step
    case Refresh =>
      (TouchLastPoll(d, me, t.now),
       Goto(Entering(room, me, row, if room.state.Writable() then CheckCounterpart else TouchPoll(true))))
    case CheckCounterpart =>
      (d, if exists h :: h in roster && h != me then Goto(Entering(room, me, row, ReadAwaySignal)) else Finish)
    case ReadAwaySignal =>
      var latest := LatestFromOther(d.messages, call.room, me);
      (d, Goto(Entering(room, me, row,
        if latest.Some? && latest.value.kind.WaitingUser? then TouchPoll(impatient) else CheckStale)))
    case CheckStale =>
      (d, Goto(Entering(room, me, row, if CounterpartIsStale(roster, me, t.now) then TouchPoll(true) else CheckClose)))
    case CheckClose =>
      (d, Goto(Entering(room, me, row, if CloseProposed(roster, me, t.now) then TouchPoll(true) else CheckExtend)))
    case CheckExtend =>
      (d, Goto(Entering(room, me, row, TouchPoll(ExtendProposed(roster, me, t.now) || impatient))))
    case TouchPoll(zero) => (TouchLastPoll(d, me, t.now), Goto(Entering(room, me, row, Subscribe(zero))))
    case Subscribe(zero) => (d, Goto(Waiting(me, row, zero, ReadCursor)))
  }

  /** The claim came back empty: give up at the deadline, otherwise look for a reason to yield. */
  function CaughtUp(me: Handle, row: nat, zero: bool, t: Tick): Next {
    if zero || t.expired then Finish else Goto(Waiting(me, row, zero, YieldOnRoom))
  }

  ghost function WaiterNext(d: Db, call: Call, me: Handle, row: nat, zero: bool, stage: WaiterStage, pinged: bool,
                            t: Tick)
    : (Db, Next)
  {
    var roster := RosterOf(d, call.room);
    match stage
    case ReadCursor =>
      (d, if me in d.participants then Goto(Waiting(me, row, zero, ReadUnread(d.participants[me].cursor)))
          else CaughtUp(me, row, zero, t))
    case ReadUnread(cursor) =>
      (d, match NextUnread(d.messages, call.room, me, cursor)
          case Some(k) => Goto(Waiting(me, row, zero, SwapCursor(cursor, k)))
          case None => CaughtUp(me, row, zero, t))
    case SwapCursor(cursor, seqno) =>
      var (d', claimed) := AdvanceCursor(d, me, cursor, seqno);
      (d', if claimed then Finish else Goto(Waiting(me, row, zero, ReadCursor)))
    case YieldOnRoom =>
      (d, if call.room in d.rooms && !d.rooms[call.room].state.Writable() then Finish
          else Goto(Waiting(me, row, zero, YieldOnClose)))
    case YieldOnClose =>
      (d, if CloseProposed(roster, me, t.now) then Finish
          else Goto(Waiting(me, row, zero, YieldOnExtend(Sighting(roster, t.now)))))
    case YieldOnExtend(sawClose) =>
      (d, if ExtendProposed(roster, me, t.now) then Finish
          else Goto(Waiting(me, row, zero, Parked(sawClose, Sighting(roster, t.now)))))
    case Parked(_, _) =>
      (d, if t.expired then Finish
          else if pinged then Goto(Waiting(me, row, zero, ReadCursor))
          else Goto(Waiting(me, row, zero, stage)))
  }

  /** The caller has a row already: show it what it has consumed. */
  function Resume(d: Db, h: Handle): Next
    requires h in d.participants
  {
    var p := d.participants[h];
    Goto(Joining(ReadRecent(h, true, p.cursor, Some(p.row))))
  }

  ghost function JoinNext(d: Db, id: RequestId, call: Call, step: JoinStep, t: Tick): (Db, Next)
    requires call.op.Join?
  {
    match step
    case ReadHead => (d, Goto(Joining(FindRow(CurrentSeq(d.messages, call.room)))))
    case FindRow(start) =>
      (d, match ByInstance(d, call.room, call.instance)
          case Some(h) => Resume(d, h)
          case None => Goto(Joining(FindRowByHandle(start))))
    case FindRowByHandle(start) =>
      (d, if HasHandle(d, call.room, call.instance)
          then Resume(d, call.instance)
          else Goto(Joining(ListRows(start, 1))))
    case ListRows(start, attempt) =>
      (d, match Identity.DeriveHandle(call.op.prefix, ByInstance(d, call.room, call.instance),
                                      RosterOf(d, call.room).Keys, t.candidates)
          case Reused(h) => Goto(Joining(ReadJoinedCursor(start, h)))
          case Created(h) => Goto(Joining(InsertRow(start, attempt, h))))
    case InsertRow(start, attempt, h) =>
      var p := Participant(call.room, call.instance, t.now, start, None, None, 0, id, start, []);
      var (d', inserted) := InsertParticipant(d, h, p);
      (d', if inserted then Goto(Joining(ReadRecent(h, false, start, Some(d.nextRow))))
           else if attempt < MAX_ATTEMPTS then Goto(Joining(Refetch(start, attempt)))
           else Finish)
    case Refetch(start, attempt) =>
      (d, match ByInstance(d, call.room, call.instance)
          case Some(h) => Resume(d, h)
          case None => Goto(Joining(ListRows(start, attempt + 1))))
    case ReadJoinedCursor(start, h) =>
      (d, match ByInstance(d, call.room, call.instance)
          case Some(g) =>
            var p := d.participants[g];
            Goto(Joining(ReadRecent(h, true, p.cursor, if g == h then Some(p.row) else None)))
          case None => Goto(Joining(ReadRecent(h, true, start, None))))
    case ReadRecent(h, resumed, upTo, row) =>
      (d, Joined(JoinAnswer(id, call.room, call.instance, h, resumed,
                            RecentUpTo(d.messages, call.room, upTo, RECENT_MESSAGE_LIMIT), row)))
  }

  ghost function SweepNext(d: Db, id: RequestId, call: Call, room: Room, step: SweepStep): (Db, Next) {
    match step
    case ReadPolls(now) =>
      var roster := RosterOf(d, call.room);
      var polls := set h | h in roster :: roster[h].lastPollAt;
      (d, match ComputeTimeEvent(room.state, room.lastActivityAt, room.stateChangedAt, polls, now)
          case Some(e) => Goto(Sweeping(room, SwapSwept(Transition(room.state, e).value, now)))
          case None => Finish)
    case SwapSwept(to, now) =>
      var (d', _) := UpdateRoomState(d, call.room, room.state, to, now, Routine, id);
      (d', Finish)
  }

  predicate IsSentinel(kind: Kind) {
    kind.WaitingUser? || kind.Fold? || kind.BlockerRealWork?
  }

  /** The point a request can only reach for its own operation. */
  predicate Fits(call: Call, pc: Pc) {
    match pc
    case Sending(_, _, _) => call.op.Send?
    case Signalling(_, _, _) => call.op.Signal? && IsSentinel(call.op.kind)
    case Closing(_, _, _) => call.op.Close?
    case Extending(_, _, _) => call.op.Extend?
    case Moving(_, _) => call.op.Pause? || call.op.Wake?
    case Entering(_, _, _, _) => call.op.Wait?
    case Waiting(_, _, _, _) => call.op.Wait?
    case Joining(_) => call.op.Join?
    case Pruning => call.op.Prune?
    case Sweeping(_, _) => call.op.Sweep?
    case Notifying => !(call.op.Wait? || call.op.Join? || call.op.Prune? || call.op.Sweep?)
    case _ => true
  }

  /** One step of one request. */
  ghost function Advance(d: Db, id: RequestId, r: Request, pinged: bool, t: Tick): (Db, Next)
    requires Fits(r.call, r.pc)
  {
    var call := r.call;
    match r.pc
    case LoadRoom => (d, LoadStep(d, call, t))
    case FindInstance(room) =>
      (d, match ByInstance(d, call.room, call.instance)
          case Some(me) => Found(d, call, room, me, t)
          case None => Goto(FindHandle(room)))
    case FindHandle(room) =>
      (d, if HasHandle(d, call.room, call.instance) then Found(d, call, room, call.instance, t) else Finish)
    case Sending(room, me, step) => SendNext(d, id, call, room, me, step, t)
    case Signalling(room, me, step) => SignalNext(d, id, call, room, me, step)
    case Closing(room, me, step) => CloseNext(d, id, call, room, me, step)
    case Extending(room, me, step) => ExtendNext(d, id, call, room, me, step, t)
    case Moving(room, to) =>
      var (d', changed) := UpdateRoomState(d, call.room, room.state, to, t.now, Routine, id);
      (d', if changed then Goto(Notifying) else Finish)
    case Entering(room, me, row, step) => WaitNext(d, call, room, me, row, step, t)
    case Waiting(me, row, zero, stage) => WaiterNext(d, call, me, row, zero, stage, pinged, t)
    case Joining(step) => JoinNext(d, id, call, step, t)
    case Pruning => (PruneStale(d, call.room, t.now - GHOST_AFTER), Finish)
    case Sweeping(room, step) => SweepNext(d, id, call, room, step)
    case Notifying => (d, Ring)
  }

  /** `calls` and `unannounced` are history: every request ever begun, and the closes that ended in a
      conflict, each with the roster in which it had counted enough votes. */
  datatype State = State(
    db: Db,
    requests: map<RequestId, Request>,
    pings: set<RequestId>,
    calls: seq<Call>,
    answers: seq<JoinAnswer>,
    unannounced: map<RequestId, Sighting>)

  const INIT := State(EMPTY, map[], {}, [], [], map[])

  datatype Action =
    | OpenRoom(room: RoomId, hardCap: int, softCap: int, now: Time)
    | Begin(call: Call)
    | Run(id: RequestId, tick: Tick)
    | Disconnect(id: RequestId)  // the client of a long-poll goes away

  ghost function SubscribersOf(requests: map<RequestId, Request>, room: RoomId): set<RequestId> {
    set id | id in requests && requests[id].pc.Waiting? && requests[id].call.room == room
  }

  ghost function Apply(s: State, id: RequestId, db: Db, next: Next, t: Tick): State
    requires id in s.requests
  {
    var r := s.requests[id];
    var rest := s.requests - {id};
    match next
    case Goto(pc) =>
      var woken := r.pc.Waiting? && r.pc.stage.Parked? && pc != r.pc && !t.morePings;
      s.(db := db, requests := s.requests[id := Request(r.call, pc)],
         pings := if woken then s.pings - {id} else s.pings)
    case Ring => s.(db := db, requests := rest, pings := s.pings + SubscribersOf(rest, r.call.room))
    case Finish => s.(db := db, requests := rest)
    case Joined(answer) => s.(db := db, requests := rest, answers := s.answers + [answer])
    case Conflict(counted) => s.(db := db, requests := rest, unannounced := s.unannounced[id := counted])
  }

  ghost function NewRoom(hardCap: int, softCap: int, now: Time): Room {
    Room(Active, hardCap, softCap, All, now, now, now, hardCap, [], 0)
  }

  ghost function Step(s: State, a: Action): State {
    match a
    case OpenRoom(room, hardCap, softCap, now) =>
      if hardCap < 1 || softCap < 2 then s
      else s.(db := InsertRoom(s.db, room, NewRoom(hardCap, softCap, now)).0)
    case Begin(call) =>
      s.(calls := s.calls + [call], requests := s.requests[|s.calls| := Request(call, LoadRoom)])
    case Run(id, t) =>
      if id in s.requests && Fits(s.requests[id].call, s.requests[id].pc)
      then
        var (db, next) := Advance(s.db, id, s.requests[id], id in s.pings, t);
        Apply(s, id, db, next, t)
      else s
    case Disconnect(id) =>
      if id in s.requests && s.requests[id].call.op.Wait? then s.(requests := s.requests - {id}) else s
  }

  /** The state after a run from `s`. */
  ghost function Exec(s: State, run: seq<Action>): State {
    if run == [] then s else Step(Exec(s, run[..|run| - 1]), run[|run| - 1])
  }
}
