/** The hourly sweep: one pass over all rooms, and what becomes of a room nobody touches any more. */
module Sweeper {
  import opened Wrappers
  import opened Lifecycle
  import opened Tables
  import opened Protocol
  import Store = Storage

  /** A room after a sweep that found it with these polls. */
  function Swept(r: Room, polls: set<Time>, now: Time, mover: RequestId): (s: Room)
    ensures s.state == r.state || (s.state != Paused && s.state != Closed && s.state != Active)
  {
    match ComputeTimeEvent(r.state, r.lastActivityAt, r.stateChangedAt, polls, now)
    case None => r
    case Some(e) => r.(state := Transition(r.state, e).value, stateChangedAt := now, changedBy := mover)
  }

  ghost function PollsOf(d: Db, room: RoomId): set<Time> {
    set h | HasHandle(d, room, h) && h in d.participants :: d.participants[h].lastPollAt
  }

  datatype SweepOutcome = SweepOutcome(room: RoomId, before: RoomState, after: RoomState)

  /** The audit rows that go with the outcomes of a sweep. */
  function Audited(outcomes: seq<SweepOutcome>, now: Time, mover: RequestId): seq<Event> {
    if outcomes == [] then []
    else
      var o := outcomes[|outcomes| - 1];
      Audited(outcomes[..|outcomes| - 1], now, mover)
          + [Event(o.room, KindOf(o.after), o.before, o.after, now, Routine, mover)]
  }

  ghost function MoveOf(d: Db, id: RoomId, now: Time, mover: RequestId): Option<SweepOutcome>
    requires id in d.rooms
  {
    var after := Swept(d.rooms[id], PollsOf(d, id), now, mover);
    if after.state == d.rooms[id].state then None else Some(SweepOutcome(id, d.rooms[id].state, after.state))
  }

  function Outcomes(moved: Option<SweepOutcome>): seq<SweepOutcome> {
    if moved.Some? then [moved.value] else []
  }

  /** The tables once this room has been swept. */
  ghost function RoomSwept(d: Db, id: RoomId, now: Time, mover: RequestId): Db
    requires id in d.rooms
  {
    d.(rooms := d.rooms[id := Swept(d.rooms[id], PollsOf(d, id), now, mover)],
       events := d.events + Audited(Outcomes(MoveOf(d, id, now, mover)), now, mover))
  }

  lemma AuditedOutcomes(moved: Option<SweepOutcome>, now: Time, mover: RequestId)
    ensures Audited(Outcomes(moved), now, mover)
            == match moved
               case None => []
               case Some(o) => [Event(o.room, KindOf(o.after), o.before, o.after, now, Routine, mover)]
  {
    if moved.Some? { assert Outcomes(moved)[..0] == []; }
  }

  method SweepRoom(storage: Store.Storage, id: RoomId, now: Time, mover: RequestId)
    returns (moved: Option<SweepOutcome>)
    requires id in storage.rooms
    modifies storage
    ensures moved == MoveOf(old(storage.Db()), id, now, mover)
    ensures storage.Db() == RoomSwept(old(storage.Db()), id, now, mover)
  {
    var room := storage.rooms[id];
    var polls := set h | h in storage.participants && storage.participants[h].room == id ::
        storage.participants[h].lastPollAt;
    assert polls == PollsOf(storage.Db(), id);
    moved := None;
    ghost var start := storage.Db();
    AuditedOutcomes(MoveOf(start, id, now, mover), now, mover);
    match ComputeTimeEvent(room.state, room.lastActivityAt, room.stateChangedAt, polls, now)
    case None =>
      assert start.rooms[id := room] == start.rooms && start.events + [] == start.events;
    case Some(event) =>
      var after := Transition(room.state, event).value;
      var changed := storage.UpdateRoomState(id, room.state, after, now, Routine, mover);
      if changed {
        moved := Some(SweepOutcome(id, room.state, after));
      }
  }

  /** The moves due in these rooms, in this order. */
  ghost function Moves(d: Db, order: seq<RoomId>, now: Time, mover: RequestId): seq<SweepOutcome>
    requires forall r :: r in order ==> r in d.rooms
  {
    if order == [] then []
    else Moves(d, order[..|order| - 1], now, mover) + Outcomes(MoveOf(d, order[|order| - 1], now, mover))
  }

  ghost predicate Distinct(order: seq<RoomId>) {
    forall i, j :: 0 <= i < j < |order| ==> order[i] != order[j]
  }

  ghost function SweptRooms(d: Db, done: seq<RoomId>, now: Time, mover: RequestId): map<RoomId, Room> {
    map r | r in d.rooms :: if r in done then Swept(d.rooms[r], PollsOf(d, r), now, mover) else d.rooms[r]
  }

  /** The tables once these rooms have been swept, in this order. */
  ghost function SweptDb(d: Db, order: seq<RoomId>, now: Time, mover: RequestId): Db
    requires forall r :: r in order ==> r in d.rooms
  {
    d.(rooms := SweptRooms(d, order, now, mover), events := d.events + Audited(Moves(d, order, now, mover), now, mover))
  }

  lemma AuditedExtends(outcomes: seq<SweepOutcome>, moved: Option<SweepOutcome>, now: Time, mover: RequestId)
    ensures Audited(outcomes + Outcomes(moved), now, mover)
      == Audited(outcomes, now, mover) + Audited(Outcomes(moved), now, mover)
  {
    if moved.Some? {
      var longer := outcomes + Outcomes(moved);
      assert longer[..|longer| - 1] == outcomes;
      assert Outcomes(moved)[..0] == [];
    } else {
      assert outcomes + [] == outcomes;
    }
  }

  lemma OneMoreRoom(d: Db, order: seq<RoomId>, id: RoomId, now: Time, mover: RequestId)
    requires id in d.rooms && id !in order
    ensures SweptRooms(d, order + [id], now, mover)
            == SweptRooms(d, order, now, mover)[id := Swept(d.rooms[id], PollsOf(d, id), now, mover)]
  {
    hide Swept, PollsOf;
  }

  /** Sweeping one more room. */
  lemma OneMore(d: Db, order: seq<RoomId>, id: RoomId, now: Time, mover: RequestId)
    requires (forall r :: r in order ==> r in d.rooms) && id in d.rooms && id !in order
    ensures var d1 := SweptDb(d, order, now, mover);
      && id in d1.rooms
      && Moves(d, order + [id], now, mover) == Moves(d, order, now, mover) + Outcomes(MoveOf(d1, id, now, mover))
      && SweptDb(d, order + [id], now, mover) == RoomSwept(d1, id, now, mover)
  {
    var d1, moved := SweptDb(d, order, now, mover), MoveOf(d, id, now, mover);
    assert PollsOf(d1, id) == PollsOf(d, id);
    assert (order + [id])[..|order|] == order;
    OneMoreRoom(d, order, id, now, mover);
    AuditedExtends(Moves(d, order, now, mover), moved, now, mover);
    hide Swept, PollsOf, Audited, Outcomes;
    assert Moves(d, order + [id], now, mover) == Moves(d, order, now, mover) + Outcomes(moved);
    hide Moves, MoveOf;
    assert d.events + (Audited(Moves(d, order, now, mover), now, mover) + Audited(Outcomes(moved), now, mover))
           == d1.events + Audited(Outcomes(moved), now, mover);
  }

  /** One pass with nobody interfering, over the rooms not archived in some order: every one of them gets the one move
      it is due, if any, with its audit row. */
  method SweepOnce(storage: Store.Storage, now: Time, mover: RequestId)
    returns (outcomes: seq<SweepOutcome>, ghost order: seq<RoomId>)
    modifies storage
    ensures forall r :: r in order <==> r in old(storage.rooms) && old(storage.rooms[r].state) != Archived
    ensures Distinct(order)
    ensures outcomes == Moves(old(storage.Db()), order, now, mover)
    ensures storage.Db() == SweptDb(old(storage.Db()), order, now, mover)
  {
    outcomes, order := [], [];
    var rest := set r | r in storage.rooms && storage.rooms[r].state != Archived;
    ghost var start, all := storage.Db(), rest;
    assert SweptRooms(start, order, now, mover) == start.rooms && Moves(start, [], now, mover) == [];
    assert SweptDb(start, order, now, mover) == start;
    hide Audited, MoveOf, Moves, SweptDb, RoomSwept, Enumerates;
    assert Enumerates(order, all, rest) by { NothingYet(all); }
    while rest != {}
      invariant rest <= all <= start.rooms.Keys && Enumerates(order, all, rest)
      invariant forall r :: r in order ==> r in start.rooms
      invariant outcomes == Moves(start, order, now, mover)
      invariant storage.Db() == SweptDb(start, order, now, mover)
      decreases |rest|
    {
      var id :| id in rest;
      OrderGrows(order, all, rest, id);
      OneMore(start, order, id, now, mover);
      var moved := SweepRoom(storage, id, now, mover);
      outcomes := outcomes + Outcomes(moved);
      order := order + [id];
      rest := rest - {id};
    }
    Enumerated(order, all);
  }

  /** The rooms done so far are all but the rest, each once. */
  ghost predicate Enumerates(order: seq<RoomId>, all: set<RoomId>, rest: set<RoomId>) {
    (forall r :: r in order <==> r in all && r !in rest) && Distinct(order)
  }

  lemma NothingYet(all: set<RoomId>)
    ensures Enumerates([], all, all)
  {
  }

  lemma Enumerated(order: seq<RoomId>, all: set<RoomId>)
    requires Enumerates(order, all, {})
    ensures (forall r :: r in order <==> r in all) && Distinct(order)
  {
  }

  lemma OrderGrows(order: seq<RoomId>, all: set<RoomId>, rest: set<RoomId>, id: RoomId)
    requires Enumerates(order, all, rest) && id in rest && rest <= all
    ensures id !in order && Enumerates(order + [id], all, rest - {id})
  {
  }
}
