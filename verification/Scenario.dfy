/** Building runs piece by piece: what a request does over several steps when nothing comes between. */
module Scenario {
  import opened Wrappers
  import opened Lifecycle
  import opened Tables
  import opened Protocol
  import opened Evolution
  import Identity

  const LATER: Time := 16 * MINUTE

  function TickAt(now: Time): Tick {
    Tick(now, false, false, ["1"])
  }

  /** The run has come to this state. */
  ghost predicate At(run: seq<Action>, s: State) {
    Exec(INIT, run) == s
  }

  /** The state with one more request, which has come to this point and left these tables. */
  ghost function With(s: State, call: Call, d: Db, pc: Pc): State {
    s.(calls := s.calls + [call], db := d, requests := s.requests[|s.calls| := Request(call, pc)])
  }

  /** Only requests that have begun are at work or pinged. */
  ghost predicate Fresh(s: State) {
    forall id :: id in s.requests || id in s.pings ==> id < |s.calls|
  }

  /** The state holds nothing but these tables. */
  ghost predicate Idles(s: State, d: Db) {
    s.db == d && s.requests == map[] && s.pings == {} && s.unannounced == map[] && Fresh(s)
  }

  lemma OneMore(run: seq<Action>, s: State, a: Action)
    requires At(run, s)
    ensures At(run + [a], Step(s, a))
  {
    assert (run + [a])[..|run|] == run;
  }

  lemma Begins(run: seq<Action>, s: State, call: Call) returns (run': seq<Action>)
    requires At(run, s)
    ensures At(run', With(s, call, s.db, LoadRoom)) && run' == run + [Begin(call)]
    ensures NoPrune(run) && !call.op.Prune? ==> NoPrune(run')
  {
    run' := run + [Begin(call)];
    OneMore(run, s, Begin(call));
  }

  /** The new request takes one more step. */
  lemma Goes(run: seq<Action>, s: State, call: Call, d: Db, pc: Pc, t: Tick, d': Db, pc': Pc)
    returns (run': seq<Action>)
    requires At(run, With(s, call, d, pc)) && Fresh(s) && Fits(call, pc) && !(pc.Waiting? && pc.stage.Parked?)
    requires Advance(d, |s.calls|, Request(call, pc), false, t) == (d', Goto(pc'))
    ensures At(run', With(s, call, d', pc')) && run' == run + [Run(|s.calls|, t)]
    ensures NoPrune(run) ==> NoPrune(run')
  {
    hide Advance, Fits;
    run' := run + [Run(|s.calls|, t)];
    OneMore(run, With(s, call, d, pc), Run(|s.calls|, t));
    assert s.requests[|s.calls| := Request(call, pc)][|s.calls| := Request(call, pc')]
        == s.requests[|s.calls| := Request(call, pc')];
  }

  /** The new request takes its last step. */
  lemma Ends(run: seq<Action>, s: State, call: Call, d: Db, pc: Pc, t: Tick, d': Db, next: Next)
    returns (run': seq<Action>, s': State)
    requires At(run, With(s, call, d, pc)) && Fresh(s) && Fits(call, pc) && !next.Goto?
    requires Advance(d, |s.calls|, Request(call, pc), false, t) == (d', next)
    ensures At(run', s') && run' == run + [Run(|s.calls|, t)]
    ensures s'.db == d' && s'.requests == s.requests && s'.calls == s.calls + [call]
    ensures s'.pings == s.pings + if next.Ring? then SubscribersOf(s.requests, call.room) else {}
    ensures s'.unannounced == if next.Conflict? then s.unannounced[|s.calls| := next.counted] else s.unannounced
    ensures NoPrune(run) ==> NoPrune(run')
  {
    hide Advance, Fits;
    run', s' := run + [Run(|s.calls|, t)], Step(With(s, call, d, pc), Run(|s.calls|, t));
    OneMore(run, With(s, call, d, pc), Run(|s.calls|, t));
    assert s.requests[|s.calls| := Request(call, pc)] - {|s.calls|} == s.requests;
  }

  lemma Opens(run: seq<Action>, s: State, room: RoomId) returns (run': seq<Action>, s': State)
    requires At(run, s) && room !in s.db.rooms
    ensures At(run', s') && s' == s.(db := s.db.(rooms := s.db.rooms[room := NewRoom(20, 4, 0)]))
    ensures NoPrune(run) ==> NoPrune(run')
  {
    var a := OpenRoom(room, 20, 4, 0);
    run', s' := run + [a], Step(s, a);
    OneMore(run, s, a);
  }

  // ---- joining ----

  function HandleFor(name: string): Handle {
    Identity.Candidate(name, "1")
  }

  function NewRow(d: Db, id: RequestId, room: RoomId, instance: string, now: Time): Participant {
    var start := CurrentSeq(d.messages, room);
    Participant(room, instance, now, start, None, None, d.nextRow, id, start, [])
  }

  ghost function WithRow(d: Db, id: RequestId, room: RoomId, name: string, now: Time): Db {
    d.(participants := d.participants[HandleFor(name) := NewRow(d, id, room, name, now)], nextRow := d.nextRow + 1)
  }

  lemma JoinAdvance(d: Db, id: RequestId, call: Call, step: JoinStep, t: Tick)
    requires call.op.Join?
    ensures Advance(d, id, Request(call, Joining(step)), false, t) == JoinNext(d, id, call, step, t)
  {
    hide JoinNext;
  }

  /** Nobody in the room goes by this name, and its handle is free. */
  ghost predicate Unknown(d: Db, room: RoomId, name: string) {
    && room in d.rooms && HandleFor(name) !in d.participants
    && (forall g :: !HasInstance(d, room, name, g)) && !HasHandle(d, room, name)
  }

  lemma JoinSteps(d: Db, id: RequestId, room: RoomId, name: string, now: Time)
    requires Unknown(d, room, name)
    ensures var call, t, start, h := Call(Join(name), room, name), TickAt(now), CurrentSeq(d.messages, room),
      HandleFor(name);
      && LoadStep(d, call, t) == Goto(Joining(ReadHead))
      && JoinNext(d, id, call, ReadHead, t) == (d, Goto(Joining(FindRow(start))))
      && JoinNext(d, id, call, FindRow(start), t) == (d, Goto(Joining(FindRowByHandle(start))))
      && JoinNext(d, id, call, FindRowByHandle(start), t) == (d, Goto(Joining(JoinStep.ListRows(start, 1))))
      && JoinNext(d, id, call, JoinStep.ListRows(start, 1), t) == (d, Goto(Joining(InsertRow(start, 1, h))))
      && JoinNext(d, id, call, InsertRow(start, 1, h), t)
         == (WithRow(d, id, room, name, now), Goto(Joining(ReadRecent(h, false, start, Some(d.nextRow)))))
  {
    hide CurrentSeq;
    assert HandleFor(name) !in RosterOf(d, room).Keys;
  }

  /** Somebody new joins under the handle `name-1`, with `name` as the instance. */
  lemma Joins(run: seq<Action>, s: State, room: RoomId, name: string, now: Time) returns (run': seq<Action>, s': State)
    requires At(run, s) && Fresh(s) && Unknown(s.db, room, name)
    ensures At(run', s') && (NoPrune(run) ==> NoPrune(run')) && run <= run'
    ensures s'.db == WithRow(s.db, |s.calls|, room, name, now) && Fresh(s')
    ensures s'.requests == s.requests && s'.pings == s.pings && s'.unannounced == s.unannounced
    ensures s'.calls == s.calls + [Call(Join(name), room, name)]
  {
    hide Advance, JoinNext, LoadStep, With, At, Fresh, NoPrune, WithRow, Unknown, CurrentSeq, HandleFor, TickAt;
    var id, h, t, call, d := |s.calls|, HandleFor(name), TickAt(now), Call(Join(name), room, name), s.db;
    var start, d' := CurrentSeq(d.messages, room), WithRow(d, id, room, name, now);
    var shown := ReadRecent(h, false, start, Some(d.nextRow));
    JoinSteps(d, id, room, name, now);
    LoadAdvance(d, id, call, t);
    run' := Begins(run, s, call);
    run' := Goes(run', s, call, d, LoadRoom, t, d, Joining(ReadHead));
    run' := JoinGoes(run', s, call, d, ReadHead, t, d, FindRow(start));
    run' := JoinGoes(run', s, call, d, FindRow(start), t, d, FindRowByHandle(start));
    run' := JoinGoes(run', s, call, d, FindRowByHandle(start), t, d, JoinStep.ListRows(start, 1));
    run' := JoinGoes(run', s, call, d, JoinStep.ListRows(start, 1), t, d, InsertRow(start, 1, h));
    run' := JoinGoes(run', s, call, d, InsertRow(start, 1, h), t, d', shown);
    run', s' := JoinEnds(run', s, call, d', shown, t);
    StaysFresh(s, s');
  }

  lemma StaysFresh(s: State, s': State)
    requires Fresh(s) && s'.requests == s.requests && s'.pings == s.pings && |s.calls| <= |s'.calls|
    ensures Fresh(s')
  {
  }

  lemma JoinGoes(run: seq<Action>, s: State, call: Call, d: Db, step: JoinStep, t: Tick, d': Db, step': JoinStep)
    returns (run': seq<Action>)
    requires At(run, With(s, call, d, Joining(step))) && Fresh(s) && call.op.Join?
    requires JoinNext(d, |s.calls|, call, step, t) == (d', Goto(Joining(step')))
    ensures At(run', With(s, call, d', Joining(step'))) && (NoPrune(run) ==> NoPrune(run')) && run <= run'
  {
    JoinAdvance(d, |s.calls|, call, step, t);
    hide Advance, JoinNext, With, At, Fresh, NoPrune;
    run' := Goes(run, s, call, d, Joining(step), t, d', Joining(step'));
  }

  lemma JoinEnds(run: seq<Action>, s: State, call: Call, d: Db, step: JoinStep, t: Tick)
    returns (run': seq<Action>, s': State)
    requires At(run, With(s, call, d, Joining(step))) && Fresh(s) && call.op.Join? && step.ReadRecent?
    ensures At(run', s') && (NoPrune(run) ==> NoPrune(run')) && run <= run'
    ensures s'.db == d && s'.requests == s.requests && s'.calls == s.calls + [call]
    ensures s'.pings == s.pings && s'.unannounced == s.unannounced
  {
    var (d', last) := JoinNext(d, |s.calls|, call, step, t);
    assert d' == d && last.Joined?;
    JoinAdvance(d, |s.calls|, call, step, t);
    hide Advance, JoinNext, With, At, Fresh, NoPrune, SubscribersOf;
    run', s' := Ends(run, s, call, d, Joining(step), t, d, last);
  }

  lemma LoadAdvance(d: Db, id: RequestId, call: Call, t: Tick)
    ensures Advance(d, id, Request(call, LoadRoom), false, t) == (d, LoadStep(d, call, t))
  {
    hide LoadStep;
  }

  // ---- waiting ----

  /** The room is active, and the name stands for a row of it. */
  ghost predicate Knows(d: Db, room: RoomId, name: string) {
    && room in d.rooms && d.rooms[room].state.Active?
    && HasInstance(d, room, name, HandleFor(name)) && forall g :: HasInstance(d, room, name, g) ==> g == HandleFor(name)
  }

  lemma KnownIsActive(d: Db, room: RoomId, name: string)
    requires Knows(d, room, name)
    ensures room in d.rooms && d.rooms[room].state.Active?
  {
  }

  /** The rows and all that identifies them are the same. */
  ghost predicate SameRows(d: Db, d': Db) {
    && d'.participants.Keys == d.participants.Keys
    && forall h :: h in d.participants ==>
         d'.participants[h].room == d.participants[h].room && d'.participants[h].instance == d.participants[h].instance
  }

  lemma StillKnown(d: Db, d': Db, room: RoomId, name: string)
    requires Knows(d, room, name) && SameRows(d, d') && d'.rooms == d.rooms
    ensures Knows(d', room, name)
  {
    forall g | HasInstance(d', room, name, g) ensures g == HandleFor(name) { assert HasInstance(d, room, name, g); }
    hide HandleFor;
  }

  lemma NewlyKnown(d: Db, id: RequestId, room: RoomId, name: string, now: Time)
    requires Unknown(d, room, name) && d.rooms[room].state.Active?
    ensures Knows(WithRow(d, id, room, name, now), room, name)
  {
    hide HandleFor;
    var d' := WithRow(d, id, room, name, now);
    forall g | HasInstance(d', room, name, g) ensures g == HandleFor(name) {
      assert g != HandleFor(name) ==> HasInstance(d, room, name, g);
    }
  }

  /** Names of one length do not get in each other's way. */
  lemma NamesApart(name: string, other: string)
    requires |name| == |other|
    ensures other != HandleFor(name) && (name != other ==> HandleFor(name) != HandleFor(other))
  {
    assert HandleFor(name)[..|name|] == name && HandleFor(other)[..|name|] == other;
  }

  lemma OtherJoins(d: Db, id: RequestId, room: RoomId, name: string, now: Time, place: RoomId, other: string)
    requires |name| == |other| && name != other
    ensures Unknown(d, place, other) ==> Unknown(WithRow(d, id, room, name, now), place, other)
    ensures Knows(d, place, other) ==> Knows(WithRow(d, id, room, name, now), place, other)
  {
    NamesApart(name, other);
    hide HandleFor;
    var d' := WithRow(d, id, room, name, now);
    forall g | HasInstance(d', place, other, g) ensures HasInstance(d, place, other, g) {
    }
    if Knows(d, place, other) { assert HasInstance(d', place, other, HandleFor(other)); }
  }

  /** Nothing keeps the waiter from parking: it has live company, and nobody is away or proposes anything. */
  ghost predicate NothingAfoot(d: Db, room: RoomId, me: Handle, now: Time) {
    var roster := RosterOf(d, room);
    && (exists h :: h in roster && h != me) && !CounterpartIsStale(roster, me, now)
    && (LatestFromOther(d.messages, room, me).Some? ==> !LatestFromOther(d.messages, room, me).value.kind.WaitingUser?)
    && !CloseProposed(roster, me, now) && !ExtendProposed(roster, me, now)
  }

  lemma EnterSteps(d: Db, id: RequestId, room: RoomId, name: string, now: Time)
    requires Knows(d, room, name)
    ensures var call, t, r, me := Call(Wait(true), room, name), TickAt(now), d.rooms[room], HandleFor(name);
      var row := d.participants[me].row;
      && Advance(d, id, Request(call, LoadRoom), false, t) == (d, Goto(FindInstance(r)))
      && Advance(d, id, Request(call, FindInstance(r)), false, t) == (d, Goto(Entering(r, me, row, Refresh)))
      && Advance(d, id, Request(call, Entering(r, me, row, Refresh)), false, t)
         == (TouchLastPoll(d, me, now), Goto(Entering(r, me, row, CheckCounterpart)))
  {
  }

  /** A participant's long-poll arrives and refreshes its liveness. */
  lemma Polls(run: seq<Action>, s: State, room: RoomId, name: string, now: Time) returns (run': seq<Action>)
    requires At(run, s) && Fresh(s) && Knows(s.db, room, name)
    ensures var me := HandleFor(name);
      At(run', With(s, Call(Wait(true), room, name), TouchLastPoll(s.db, me, now),
                    Entering(s.db.rooms[room], me, s.db.participants[me].row, CheckCounterpart)))
    ensures (NoPrune(run) ==> NoPrune(run')) && run <= run'
  {
    var call, t, me, d := Call(Wait(true), room, name), TickAt(now), HandleFor(name), s.db;
    var r, row := d.rooms[room], d.participants[me].row;
    hide Advance, With, At, Fresh, NoPrune, Knows, HandleFor, TickAt, TouchLastPoll;
    EnterSteps(d, |s.calls|, room, name, now);
    run' := Begins(run, s, call);
    run' := Goes(run', s, call, d, LoadRoom, t, d, FindInstance(r));
    run' := Goes(run', s, call, d, FindInstance(r), t, d, Entering(r, me, row, Refresh));
    run' := Goes(run', s, call, d, Entering(r, me, row, Refresh), t, TouchLastPoll(d, me, now),
                 Entering(r, me, row, CheckCounterpart));
  }

  lemma SettleSteps(d: Db, id: RequestId, room: RoomId, name: string, r: Room, row: nat, now: Time)
    requires var me := HandleFor(name);
      me in d.participants && d.participants[me].lastPollAt == now && NothingAfoot(d, room, me, now)
    ensures var call, t, me := Call(Wait(true), room, name), TickAt(now), HandleFor(name);
      && Advance(d, id, Request(call, Entering(r, me, row, CheckCounterpart)), false, t)
         == (d, Goto(Entering(r, me, row, ReadAwaySignal)))
      && Advance(d, id, Request(call, Entering(r, me, row, ReadAwaySignal)), false, t)
         == (d, Goto(Entering(r, me, row, CheckStale)))
      && Advance(d, id, Request(call, Entering(r, me, row, CheckStale)), false, t)
         == (d, Goto(Entering(r, me, row, CheckClose)))
      && Advance(d, id, Request(call, Entering(r, me, row, CheckClose)), false, t)
         == (d, Goto(Entering(r, me, row, CheckExtend)))
      && Advance(d, id, Request(call, Entering(r, me, row, CheckExtend)), false, t)
         == (d, Goto(Entering(r, me, row, TouchPoll(false))))
  {
    hide RosterOf, CounterpartIsStale, CloseProposed, ExtendProposed, LatestFromOther;
  }

  lemma SubscribeSteps(d: Db, id: RequestId, room: RoomId, name: string, r: Room, row: nat, now: Time)
    requires var me := HandleFor(name); me in d.participants && d.participants[me].lastPollAt == now
    ensures var call, t, me := Call(Wait(true), room, name), TickAt(now), HandleFor(name);
      && Advance(d, id, Request(call, Entering(r, me, row, TouchPoll(false))), false, t)
         == (d, Goto(Entering(r, me, row, WaitStep.Subscribe(false))))
      && Advance(d, id, Request(call, Entering(r, me, row, WaitStep.Subscribe(false))), false, t)
         == (d, Goto(Waiting(me, row, false, ReadCursor)))
      && Advance(d, id, Request(call, Waiting(me, row, false, ReadCursor)), false, t)
         == (d, Goto(Waiting(me, row, false, ReadUnread(d.participants[me].cursor))))
  {
    var me := HandleFor(name);
    assert TouchLastPoll(d, me, now) == d by {
      assert d.participants[me := d.participants[me].(lastPollAt := now)] == d.participants;
    }
  }

  /** From there to the subscription and the first look at the cursor. */
  lemma Subscribes(run: seq<Action>, s: State, room: RoomId, name: string, now: Time, d: Db, r: Room, row: nat)
    returns (run': seq<Action>)
    requires Fresh(s)
    requires var me := HandleFor(name);
      me in d.participants && d.participants[me].lastPollAt == now && NothingAfoot(d, room, me, now)
    requires At(run, With(s, Call(Wait(true), room, name), d, Entering(r, HandleFor(name), row, CheckCounterpart)))
    ensures var me := HandleFor(name);
      At(run', With(s, Call(Wait(true), room, name), d, Waiting(me, row, false, ReadUnread(d.participants[me].cursor))))
    ensures NoPrune(run) ==> NoPrune(run')
  {
    var call, t, me := Call(Wait(true), room, name), TickAt(now), HandleFor(name);
    hide Advance, With, At, Fresh, NoPrune, HandleFor, TickAt, NothingAfoot;
    SettleSteps(d, |s.calls|, room, name, r, row, now);
    SubscribeSteps(d, |s.calls|, room, name, r, row, now);
    run' := Goes(run, s, call, d, Entering(r, me, row, CheckCounterpart), t, d, Entering(r, me, row, ReadAwaySignal));
    run' := Goes(run', s, call, d, Entering(r, me, row, ReadAwaySignal), t, d, Entering(r, me, row, CheckStale));
    run' := Goes(run', s, call, d, Entering(r, me, row, CheckStale), t, d, Entering(r, me, row, CheckClose));
    run' := Goes(run', s, call, d, Entering(r, me, row, CheckClose), t, d, Entering(r, me, row, CheckExtend));
    run' := Goes(run', s, call, d, Entering(r, me, row, CheckExtend), t, d, Entering(r, me, row, TouchPoll(false)));
    run' := Goes(run', s, call, d, Entering(r, me, row, TouchPoll(false)), t, d,
                 Entering(r, me, row, WaitStep.Subscribe(false)));
    run' := Goes(run', s, call, d, Entering(r, me, row, WaitStep.Subscribe(false)), t, d,
                 Waiting(me, row, false, ReadCursor));
    run' := Goes(run', s, call, d, Waiting(me, row, false, ReadCursor), t, d,
                 Waiting(me, row, false, ReadUnread(d.participants[me].cursor)));
  }

  lemma ParkSteps(d: Db, id: RequestId, room: RoomId, name: string, row: nat, now: Time, cursor: nat)
    requires NothingAfoot(d, room, HandleFor(name), now) && room in d.rooms && d.rooms[room].state.Active?
    requires NextUnread(d.messages, room, HandleFor(name), cursor).None?
    ensures var call, t, me, saw := Call(Wait(true), room, name), TickAt(now), HandleFor(name),
      Sighting(RosterOf(d, room), now);
      && Advance(d, id, Request(call, Waiting(me, row, false, ReadUnread(cursor))), false, t)
         == (d, Goto(Waiting(me, row, false, YieldOnRoom)))
      && Advance(d, id, Request(call, Waiting(me, row, false, YieldOnRoom)), false, t)
         == (d, Goto(Waiting(me, row, false, YieldOnClose)))
      && Advance(d, id, Request(call, Waiting(me, row, false, YieldOnClose)), false, t)
         == (d, Goto(Waiting(me, row, false, YieldOnExtend(saw))))
      && Advance(d, id, Request(call, Waiting(me, row, false, YieldOnExtend(saw))), false, t)
         == (d, Goto(Waiting(me, row, false, Parked(saw, saw))))
  {
    hide RosterOf, CounterpartIsStale, CloseProposed, ExtendProposed, LatestFromOther, NextUnread;
  }

  /** With an empty inbox it parks. */
  lemma Parks(run: seq<Action>, s: State, room: RoomId, name: string, now: Time, d: Db, row: nat, cursor: nat)
    returns (run': seq<Action>)
    requires Fresh(s) && NothingAfoot(d, room, HandleFor(name), now) && room in d.rooms && d.rooms[room].state.Active?
    requires NextUnread(d.messages, room, HandleFor(name), cursor).None?
    requires At(run, With(s, Call(Wait(true), room, name), d, Waiting(HandleFor(name), row, false, ReadUnread(cursor))))
    ensures var saw := Sighting(RosterOf(d, room), now);
      At(run', With(s, Call(Wait(true), room, name), d, Waiting(HandleFor(name), row, false, Parked(saw, saw))))
    ensures NoPrune(run) ==> NoPrune(run')
  {
    var call, t, me, saw := Call(Wait(true), room, name), TickAt(now), HandleFor(name),
        Sighting(RosterOf(d, room), now);
    hide Advance, With, At, Fresh, NoPrune, HandleFor, TickAt, NothingAfoot, NextUnread, RosterOf;
    ParkSteps(d, |s.calls|, room, name, row, now, cursor);
    run' := Goes(run, s, call, d, Waiting(me, row, false, ReadUnread(cursor)), t, d,
                 Waiting(me, row, false, YieldOnRoom));
    run' := Goes(run', s, call, d, Waiting(me, row, false, YieldOnRoom), t, d, Waiting(me, row, false, YieldOnClose));
    run' := Goes(run', s, call, d, Waiting(me, row, false, YieldOnClose), t, d,
                 Waiting(me, row, false, YieldOnExtend(saw)));
    run' := Goes(run', s, call, d, Waiting(me, row, false, YieldOnExtend(saw)), t, d,
                 Waiting(me, row, false, Parked(saw, saw)));
  }

  /** All of it: the long-poll arrives, subscribes and parks. */
  lemma FallsAsleep(run: seq<Action>, s: State, room: RoomId, name: string, now: Time) returns (run': seq<Action>)
    requires At(run, s) && Fresh(s) && Knows(s.db, room, name)
    requires var d := TouchLastPoll(s.db, HandleFor(name), now);
      && NothingAfoot(d, room, HandleFor(name), now)
      && NextUnread(d.messages, room, HandleFor(name), d.participants[HandleFor(name)].cursor).None?
    ensures var me, d := HandleFor(name), TouchLastPoll(s.db, HandleFor(name), now);
      var saw := Sighting(RosterOf(d, room), now);
      At(run', With(s, Call(Wait(true), room, name), d,
                    Waiting(me, s.db.participants[me].row, false, Parked(saw, saw))))
    ensures NoPrune(run) ==> NoPrune(run')
  {
    var me := HandleFor(name);
    var d := TouchLastPoll(s.db, me, now);
    var row := s.db.participants[me].row;
    hide With, At, Fresh, NoPrune, HandleFor, NothingAfoot, NextUnread, RosterOf;
    run' := Polls(run, s, room, name, now);
    run' := Subscribes(run', s, room, name, now, d, s.db.rooms[room], row);
    run' := Parks(run', s, room, name, now, d, row, d.participants[me].cursor);
  }

  // ---- proposing to close ----

  ghost function Voted(d: Db, id: RequestId, me: Handle, now: Time): Db {
    CastCloseVote(TouchLastPoll(d, me, now), me, now, id)
  }

  lemma VoteSteps(d: Db, id: RequestId, room: RoomId, name: string, now: Time)
    requires Knows(d, room, name)
    ensures var call, t, r, me := Call(Close(false), room, name), TickAt(now), d.rooms[room], HandleFor(name);
      var touched := TouchLastPoll(d, me, now);
      && Advance(d, id, Request(call, LoadRoom), false, t) == (d, Goto(FindInstance(r)))
      && Advance(d, id, Request(call, FindInstance(r)), false, t) == (d, Goto(Closing(r, me, TouchCloser(now))))
      && Advance(d, id, Request(call, Closing(r, me, TouchCloser(now))), false, t)
         == (touched, Goto(Closing(r, me, CastVote(now))))
      && Advance(touched, id, Request(call, Closing(r, me, CastVote(now))), false, t)
         == (Voted(d, id, me, now), Goto(Closing(r, me, CountVotes(now))))
  {
  }

  /** A close request arrives and is about to cast its vote. */
  lemma AsksToClose(run: seq<Action>, s: State, room: RoomId, name: string, now: Time) returns (run': seq<Action>)
    requires At(run, s) && Fresh(s) && Knows(s.db, room, name)
    ensures var me := HandleFor(name);
      At(run', With(s, Call(Close(false), room, name), TouchLastPoll(s.db, me, now),
                    Closing(s.db.rooms[room], me, CastVote(now))))
    ensures (NoPrune(run) ==> NoPrune(run')) && run <= run'
  {
    var call, t, me, d := Call(Close(false), room, name), TickAt(now), HandleFor(name), s.db;
    var r := d.rooms[room];
    hide Advance, With, At, Fresh, NoPrune, Knows, HandleFor, TickAt, TouchLastPoll;
    VoteSteps(d, |s.calls|, room, name, now);
    run' := Begins(run, s, call);
    run' := Goes(run', s, call, d, LoadRoom, t, d, FindInstance(r));
    run' := Goes(run', s, call, d, FindInstance(r), t, d, Closing(r, me, TouchCloser(now)));
    run' := Goes(run', s, call, d, Closing(r, me, TouchCloser(now)), t, TouchLastPoll(d, me, now),
                 Closing(r, me, CastVote(now)));
  }

  /** It casts its vote. */
  lemma Votes(run: seq<Action>, s: State, room: RoomId, name: string, now: Time) returns (run': seq<Action>)
    requires At(run, s) && Fresh(s) && Knows(s.db, room, name)
    ensures var me := HandleFor(name);
      At(run', With(s, Call(Close(false), room, name), Voted(s.db, |s.calls|, me, now),
                    Closing(s.db.rooms[room], me, CountVotes(now))))
    ensures (NoPrune(run) ==> NoPrune(run')) && run <= run'
  {
    var call, t, me, d := Call(Close(false), room, name), TickAt(now), HandleFor(name), s.db;
    var r := d.rooms[room];
    hide Advance, With, At, Fresh, NoPrune, Knows, HandleFor, TickAt, TouchLastPoll, Voted;
    VoteSteps(d, |s.calls|, room, name, now);
    run' := AsksToClose(run, s, room, name, now);
    run' := Goes(run', s, call, TouchLastPoll(d, me, now), Closing(r, me, CastVote(now)), t,
                 Voted(d, |s.calls|, me, now), Closing(r, me, CountVotes(now)));
  }

  lemma CountsInVain(d: Db, id: RequestId, room: RoomId, name: string, r: Room, now: Time)
    requires var roster := RosterOf(d, room); |CloseVoters(roster, now)| < r.quorum.Needed(|Live(roster, now)|)
    ensures var call, t := Call(Close(false), room, name), TickAt(now);
      && Advance(d, id, Request(call, Closing(r, HandleFor(name), CountVotes(now))), false, t) == (d, Goto(Notifying))
      && Advance(d, id, Request(call, Notifying), false, t) == (d, Ring)
  {
    hide HandleFor, RosterOf, CloseVoters, Live;
  }

  /** A close is voted for and counted, votes are lacking, and it rings a room in which nobody waits. */
  lemma ProposesInVain(run: seq<Action>, s: State, room: RoomId, name: string, now: Time)
    returns (run': seq<Action>, s': State)
    requires At(run, s) && Fresh(s) && Knows(s.db, room, name) && SubscribersOf(s.requests, room) == {}
    requires var roster := RosterOf(Voted(s.db, |s.calls|, HandleFor(name), now), room);
      |CloseVoters(roster, now)| < s.db.rooms[room].quorum.Needed(|Live(roster, now)|)
    ensures At(run', s') && Fresh(s') && s'.db == Voted(s.db, |s.calls|, HandleFor(name), now)
    ensures s'.requests == s.requests && s'.pings == s.pings && s'.unannounced == s.unannounced
    ensures s'.calls == s.calls + [Call(Close(false), room, name)] && (NoPrune(run) ==> NoPrune(run')) && run <= run'
  {
    hide Advance, With, At, Fresh, NoPrune, Knows, HandleFor, TickAt, Voted, RosterOf, CloseVoters, Live, SubscribersOf;
    KnownIsActive(s.db, room, name);
    var call, t, me, r := Call(Close(false), room, name), TickAt(now), HandleFor(name), s.db.rooms[room];
    var d := Voted(s.db, |s.calls|, me, now);
    CountsInVain(d, |s.calls|, room, name, r, now);
    run' := Votes(run, s, room, name, now);
    run' := Goes(run', s, call, d, Closing(r, me, CountVotes(now)), t, d, Notifying);
    run', s' := Ends(run', s, call, d, Notifying, t, d, Ring);
    StaysFresh(s, s');
  }

  // ---- any request ----

  /** Some request at work takes a step. */
  lemma Moves(run: seq<Action>, s: State, id: RequestId, t: Tick, d': Db, next: Next) returns (run': seq<Action>)
    requires At(run, s) && id in s.requests && Fits(s.requests[id].call, s.requests[id].pc)
    requires Advance(s.db, id, s.requests[id], id in s.pings, t) == (d', next)
    ensures At(run', Apply(s, id, d', next, t)) && run' == run + [Run(id, t)]
    ensures NoPrune(run) ==> NoPrune(run')
  {
    hide Advance, Fits, Apply;
    run' := run + [Run(id, t)];
    OneMore(run, s, Run(id, t));
  }

  lemma WithStaysFresh(s: State, call: Call, d: Db, pc: Pc)
    requires Fresh(s)
    ensures Fresh(With(s, call, d, pc))
  {
  }
}
