/** What becomes of a room nobody touches any more, sweep after sweep. */
module Timeline {
  import opened Wrappers
  import opened Lifecycle
  import opened Tables
  import opened Protocol
  import opened Sweeper

  /** A sweep moves a room along the table or not at all, and never a paused or archived one. */
  lemma SweptFollowsTable(r: Room, polls: set<Time>, now: Time, mover: RequestId)
    ensures var s := Swept(r, polls, now, mover);
      && (s == r || (Edge(r.state, s.state) && s == r.(state := s.state, stateChangedAt := now, changedBy := mover)))
      && (r.state.Paused? || r.state.Archived? ==> s == r)
  {
    var e := ComputeTimeEvent(r.state, r.lastActivityAt, r.stateChangedAt, polls, now);
    if e.Some? { assert Edge(r.state, Transition(r.state, e.value).value); }
  }

  /** A sweep request that is not interrupted does to its room what the pass does to it. */
  lemma SweepRequestAlone(d: Db, id: RequestId, call: Call, t: Tick)
    requires call.op.Sweep? && call.room in d.rooms
    ensures
      var swept := Swept(d.rooms[call.room], PollsOf(d, call.room), t.now, id);
      match LoadStep(d, call, t)
      case Goto(Sweeping(room, step)) =>
        (match SweepNext(d, id, call, room, step).1
         case Goto(Sweeping(room', step')) =>
           var (d', next) := SweepNext(d, id, call, room', step');
               next.Finish? && d'.rooms == d.rooms[call.room := swept]
         case _ => swept == d.rooms[call.room])
      case _ => swept == d.rooms[call.room]
  {
    var roster := RosterOf(d, call.room);
    var polls := set h | h in roster :: roster[h].lastPollAt;
    forall p | p in PollsOf(d, call.room) ensures p in polls {
      var h :| HasHandle(d, call.room, h) && d.participants[h].lastPollAt == p;
      assert h in roster;
    }
    assert polls == PollsOf(d, call.room);
  }

  function SweepTime(first: Time, k: nat): Time {
    first + k * HOUR
  }

  /** The room after n hourly sweeps, with no other change to it and no poll in between. */
  function After(r: Room, polls: set<Time>, first: Time, n: nat, mover: RequestId): Room {
    if n == 0 then r else Swept(After(r, polls, first, n - 1, mover), polls, SweepTime(first, n - 1), mover)
  }

  /** Active, last used and last polled no later than t0, and the first sweep within the hour. */
  predicate Abandoned(r: Room, polls: set<Time>, t0: Time, first: Time) {
    r.state.Active? && r.lastActivityAt == t0 && (forall p <- polls :: p <= t0) && t0 <= first < t0 + HOUR
  }

  const IDLE_SWEEP: nat := 24
  const STALE_SWEEP: nat := 168
  const ARCHIVE_SWEEP: nat := 504

  /** By then an hourly sweep has seen participants, all of them ghosts. */
  predicate SeenGhosts(polls: set<Time>, first: Time, n: nat) {
    n > 0 && polls != {} && NoLivePoller(polls, SweepTime(first, n - 1))
  }

  function Destiny(polls: set<Time>, first: Time, n: nat): RoomState {
    if n > ARCHIVE_SWEEP then Archived
    else if n > STALE_SWEEP then Stale
    else if n > IDLE_SWEEP || SeenGhosts(polls, first, n) then Idle
    else Active
  }

  lemma GhostsStayGhosts(polls: set<Time>, first: Time, n: nat)
    ensures SeenGhosts(polls, first, n) ==> SeenGhosts(polls, first, n + 1)
  {
  }

  /** The whole life of an abandoned room, exactly: idle once its participants are ghosts or a day has gone by, stale by
      the sweep at seven days, archived by the one fourteen days after that, and never anything else. */
  lemma {:induction false} AbandonedRoom(r: Room, polls: set<Time>, t0: Time, first: Time, n: nat, mover: RequestId)
    requires Abandoned(r, polls, t0, first)
    ensures var s := After(r, polls, first, n, mover);
      && s.state == Destiny(polls, first, n) && s.lastActivityAt == t0
      && (s.state.Stale? ==> s.stateChangedAt == SweepTime(first, STALE_SWEEP))
      && (s.state.Archived? ==> s.stateChangedAt == SweepTime(first, ARCHIVE_SWEEP))
  {
    if n > 0 {
      AbandonedRoom(r, polls, t0, first, n - 1, mover);
      GhostsStayGhosts(polls, first, n - 1);
    }
  }

  /** So it is archived no sooner than 21 days after its last use, and less than an hour later; up to then it isn't. */
  lemma ArchivedInTime(r: Room, polls: set<Time>, t0: Time, first: Time, n: nat, mover: RequestId)
    requires Abandoned(r, polls, t0, first)
    ensures t0 + STALE_AFTER + ARCHIVE_AFTER <= SweepTime(first, ARCHIVE_SWEEP) < t0 + STALE_AFTER + ARCHIVE_AFTER
      + HOUR
    ensures After(r, polls, first, n, mover).state == Archived
            <==> n > 0 && SweepTime(first, n - 1) >= t0 + STALE_AFTER + ARCHIVE_AFTER
  {
    AbandonedRoom(r, polls, t0, first, n, mover);
  }

  // ---- rooms that are not active ----

  /** One of the first n sweeps came at this time or later. */
  ghost predicate SweptFrom(first: Time, n: nat, from: Time) {
    exists k: nat :: k < n && SweepTime(first, k) >= from
  }

  lemma SweptFromStep(first: Time, n: nat, from: Time)
    requires n > 0
    ensures SweptFrom(first, n, from) <==> SweepTime(first, n - 1) >= from
  {
    if k: nat :| k < n && SweepTime(first, k) >= from { assert SweepTime(first, k) <= SweepTime(first, n - 1); }
  }

  /** A closed or a stale room is archived by the first sweep fourteen days after it became so, and is left as it is by
      all before. */
  lemma {:induction false} RestingRoom(r: Room, polls: set<Time>, first: Time, n: nat, mover: RequestId)
    requires r.state.Closed? || r.state.Stale?
    ensures var s := After(r, polls, first, n, mover);
      if SweptFrom(first, n, r.stateChangedAt + 14 * DAY) then s.state == Archived else s == r
  {
    if n > 0 {
      RestingRoom(r, polls, first, n - 1, mover);
      SweptFromStep(first, n, r.stateChangedAt + 14 * DAY);
      if n > 1 { SweptFromStep(first, n - 1, r.stateChangedAt + 14 * DAY); }
    }
  }

  /** This sweep finds the room unused for seven days, and nobody who has polled in the last quarter of an hour. */
  predicate FindsStale(r: Room, polls: set<Time>, now: Time) {
    now >= r.lastActivityAt + 7 * DAY && forall p <- polls :: now - p > 15 * MINUTE
  }

  lemma {:induction false} IdleUntilThen(r: Room, polls: set<Time>, first: Time, n: nat, mover: RequestId)
    requires r.state.Idle? && forall k: nat :: k < n ==> !FindsStale(r, polls, SweepTime(first, k))
    ensures After(r, polls, first, n, mover) == r
  {
    if n > 0 { IdleUntilThen(r, polls, first, n - 1, mover); }
  }

  lemma {:induction false} AfterInTwo(r: Room, polls: set<Time>, first: Time, n: nat, m: nat, mover: RequestId)
    ensures After(r, polls, first, n + m, mover)
      == After(After(r, polls, first, n, mover), polls, SweepTime(first, n), m, mover)
  {
    if m > 0 {
      AfterInTwo(r, polls, first, n, m - 1, mover);
      assert SweepTime(first, n + m - 1) == SweepTime(SweepTime(first, n), m - 1);
    }
  }

  /** The rest of the life of an idle room, exactly: idle until the first sweep that finds it so, stale from that one
      on, and archived by the first sweep fourteen days later. */
  lemma IdleRoom(r: Room, polls: set<Time>, first: Time, stale: nat, n: nat, mover: RequestId)
    requires r.state.Idle? && FindsStale(r, polls, SweepTime(first, stale))
    requires forall k: nat :: k < stale ==> !FindsStale(r, polls, SweepTime(first, k))
    ensures After(r, polls, first, n, mover).state
      == if n <= stale then Idle
         else if SweptFrom(SweepTime(first, stale + 1), n - stale - 1, SweepTime(first, stale) + 14 * DAY) then Archived
         else Stale
  {
    if n <= stale {
      IdleUntilThen(r, polls, first, n, mover);
    } else {
      IdleUntilThen(r, polls, first, stale, mover);
      AfterInTwo(r, polls, first, stale + 1, n - stale - 1, mover);
      RestingRoom(After(r, polls, first, stale + 1, mover), polls, SweepTime(first, stale + 1), n - stale - 1, mover);
    }
  }

  /** The room after hourly sweeps each of which found these polls. */
  function AfterSeeing(r: Room, seen: seq<set<Time>>, first: Time, mover: RequestId): Room {
    if seen == [] then r
    else
      var last := |seen| - 1;
      Swept(AfterSeeing(r, seen[..last], first, mover), seen[last], SweepTime(first, last), mover)
  }

  predicate SomebodyPolled(polls: set<Time>, now: Time) {
    exists p :: p in polls && now - p <= 15 * MINUTE
  }

  /** However old an idle room is, it does not go stale as long as each sweep finds somebody who has polled in the last
      quarter of an hour. */
  lemma {:induction false} PollersKeepIdle(r: Room, seen: seq<set<Time>>, first: Time, mover: RequestId)
    requires r.state.Idle?
    requires forall k :: 0 <= k < |seen| ==> SomebodyPolled(seen[k], SweepTime(first, k))
    ensures AfterSeeing(r, seen, first, mover) == r
  {
    if seen != [] {
      var last := |seen| - 1;
      PollersKeepIdle(r, seen[..last], first, mover);
      assert SomebodyPolled(seen[last], SweepTime(first, last));
    }
  }

  // ---- all rooms together ----

  ghost predicate RoomsOf(d: Db, orders: seq<seq<RoomId>>) {
    forall k :: 0 <= k < |orders| ==> forall r <- orders[k] :: r in d.rooms
  }

  /** The tables after hourly passes over these rooms, with nothing else done in between. */
  ghost function Passes(d: Db, orders: seq<seq<RoomId>>, first: Time, mover: RequestId): (d': Db)
    requires RoomsOf(d, orders)
    ensures d'.rooms.Keys == d.rooms.Keys && d'.participants == d.participants
  {
    if orders == [] then d
    else
      var last := |orders| - 1;
      assert RoomsOf(d, orders[..last]) && forall r <- orders[last] :: r in d.rooms;
      SweptDb(Passes(d, orders[..last], first, mover), orders[last], SweepTime(first, last), mover)
  }

  /** Each pass goes over the rooms that are not archived when it begins. */
  ghost predicate AllListed(d: Db, orders: seq<seq<RoomId>>, first: Time, mover: RequestId)
    requires RoomsOf(d, orders)
  {
    orders == [] ||
      var last := |orders| - 1;
      assert RoomsOf(d, orders[..last]);
      && AllListed(d, orders[..last], first, mover)
      && forall r :: r in orders[last]
          <==> r in d.rooms && Passes(d, orders[..last], first, mover).rooms[r].state != Archived
  }

  /** The passes do to each room what they would do to it alone: archived rooms, which they leave out, would not
      move. */
  lemma {:induction false} PassesDoRooms(d: Db, orders: seq<seq<RoomId>>, first: Time, mover: RequestId, id: RoomId)
    requires RoomsOf(d, orders) && AllListed(d, orders, first, mover) && id in d.rooms
    ensures Passes(d, orders, first, mover).rooms[id] == After(d.rooms[id], PollsOf(d, id), first, |orders|, mover)
  {
    if orders != [] {
      var last := |orders| - 1;
      assert RoomsOf(d, orders[..last]);
      var before := Passes(d, orders[..last], first, mover);
      PassesDoRooms(d, orders[..last], first, mover, id);
      SweptFollowsTable(before.rooms[id], PollsOf(d, id), SweepTime(first, last), mover);
      assert PollsOf(before, id) == PollsOf(d, id);
    }
  }

  /** After any number of hourly passes over the tables each abandoned room is exactly where it should be, whatever the
      others are and in whatever order they are swept. */
  lemma AbandonedRooms(d: Db, orders: seq<seq<RoomId>>, t0: Time, first: Time, mover: RequestId, id: RoomId)
    requires RoomsOf(d, orders) && AllListed(d, orders, first, mover)
    requires id in d.rooms && Abandoned(d.rooms[id], PollsOf(d, id), t0, first)
    ensures var n, r := |orders|, Passes(d, orders, first, mover).rooms[id];
      && r.state == Destiny(PollsOf(d, id), first, n) && r.lastActivityAt == t0
      && (r.state == Archived <==> n > 0 && SweepTime(first, n - 1) >= t0 + STALE_AFTER + ARCHIVE_AFTER)
  {
    PassesDoRooms(d, orders, first, mover, id);
    AbandonedRoom(d.rooms[id], PollsOf(d, id), t0, first, |orders|, mover);
    ArchivedInTime(d.rooms[id], PollsOf(d, id), t0, first, |orders|, mover);
  }

  /** So is every closed or stale room: archived from the pass fourteen days on, and left alone until then. */
  lemma RestingRooms(d: Db, orders: seq<seq<RoomId>>, first: Time, mover: RequestId, id: RoomId)
    requires RoomsOf(d, orders) && AllListed(d, orders, first, mover)
    requires id in d.rooms && (d.rooms[id].state.Closed? || d.rooms[id].state.Stale?)
    ensures var r := Passes(d, orders, first, mover).rooms[id];
      if SweptFrom(first, |orders|, d.rooms[id].stateChangedAt + 14 * DAY) then r.state == Archived
          else r == d.rooms[id]
  {
    PassesDoRooms(d, orders, first, mover, id);
    RestingRoom(d.rooms[id], PollsOf(d, id), first, |orders|, mover);
  }
}
