/** The long-poll handler as straight code: what it checks before it parks, and the loop it parks in. Proved, like the
    other handlers, to do what the request machine does when nothing interferes. */
module WaitHandler {
  import opened Wrappers
  import opened Lifecycle
  import opened Tables
  import opened Protocol
  import opened Outcomes
  import opened Handlers
  import Store = Storage

  lemma AloneEnters(d: Db, id: RequestId, call: Call, clock: Clock, n: nat, e: Db, room: Room, me: Handle, row: nat,
                    step: WaitStep)
    requires Alone(d, id, call, clock, n) == (e, Goto(Entering(room, me, row, step))) && call.op.Wait?
    ensures Alone(d, id, call, clock, n + 1) == WaitNext(e, call, room, me, row, step, clock(n))
  {
    AloneStep(d, id, call, clock, n, e, Entering(room, me, row, step));
    hide Alone, WaitNext;
  }

  lemma AloneWaits(d: Db, id: RequestId, call: Call, clock: Clock, n: nat, e: Db, me: Handle, row: nat, zero: bool,
                   stage: WaiterStage)
    requires Alone(d, id, call, clock, n) == (e, Goto(Waiting(me, row, zero, stage))) && call.op.Wait?
    ensures Alone(d, id, call, clock, n + 1) == WaiterNext(e, call, me, row, zero, stage, false, clock(n))
  {
    AloneStep(d, id, call, clock, n, e, Waiting(me, row, zero, stage));
    hide Alone, WaiterNext;
  }

  lemma FoundWaits(d: Db, call: Call, room: Room, me: Handle, t: Tick)
    requires me in d.participants && call.op.Wait?
    ensures Found(d, call, room, me, t) == Goto(Entering(room, me, d.participants[me].row, Refresh))
  {
  }

  method HasCounterpart(roster: Roster, me: Handle) returns (r: bool)
    ensures r <==> exists h :: h in roster && h != me
  {
    r := roster.Keys - {me} != {};
    if r {
      ghost var h :| h in roster.Keys - {me};
    }
    assert !r ==> forall h :: h in roster.Keys ==> h in roster.Keys - {me} || h == me;
  }

  method CheckCloseProposed(roster: Roster, me: Handle, now: Time) returns (r: bool)
    ensures r <==> CloseProposed(roster, me, now)
  {
    var voters := set h | h in roster && h != me && roster[h].wantsClose.Some?
        && now - roster[h].lastPollAt <= GHOST_AFTER;
    r := !(me in roster && roster[me].wantsClose.Some?) && voters != {};
    if voters != {} {
      ghost var h :| h in voters;
      assert IsLive(roster[h], now);
    } else {
      assert forall h :: h in roster && h != me && roster[h].wantsClose.Some? && IsLive(roster[h], now) ==> h in voters;
    }
  }

  method CheckExtendProposed(roster: Roster, me: Handle, now: Time) returns (r: bool)
    ensures r <==> ExtendProposed(roster, me, now)
  {
    var voters := set h | h in roster && h != me && roster[h].wantsExtend.Some?
        && now - roster[h].lastPollAt <= GHOST_AFTER;
    r := !(me in roster && roster[me].wantsExtend.Some?) && voters != {};
    if voters != {} {
      ghost var h :| h in voters;
      assert IsLive(roster[h], now);
    } else {
      assert forall h ::
          h in roster && h != me && roster[h].wantsExtend.Some? && IsLive(roster[h], now) ==> h in voters;
    }
  }

  method CheckCounterpartIsStale(roster: Roster, me: Handle, now: Time) returns (r: bool)
    ensures r <==> CounterpartIsStale(roster, me, now)
  {
    var others := set h | h in roster && h != me;
    var dark := set h | h in others && now - roster[h].lastPollAt > GHOST_AFTER;
    r := others != {} && dark == others;
    if others != {} {
      ghost var h :| h in others;
      assert h in roster && h != me;
    }
    assert forall h :: h in roster && h != me ==> h in others && (h in dark <==> !IsLive(roster[h], now));
  }

  /** The park is cut to nothing behind a dark counterpart or a pending proposal, not behind one that said it is
      away. */
  method DecidePark(storage: Store.Storage, ghost d: Db, id: RequestId, call: Call, clock: Clock, room: Room,
                    me: Handle, row: nat, n: nat)
    returns (zero: bool, k: nat)
    requires HasHandle(storage.Db(), call.room, me) && Accompanied(storage.Db(), call.room, me)
    requires call.op.Wait? && Alone(d, id, call, clock, n)
      == (storage.Db(), Goto(Entering(room, me, row, ReadAwaySignal)))
    ensures Alone(d, id, call, clock, k) == (storage.Db(), Goto(Entering(room, me, row, TouchPoll(zero)))) && k > n
    ensures zero
      <==> Cut(storage.Db(), call.room, me, call.op.patient, clock(n + 1).now, clock(n + 2).now, clock(n + 3).now)
    ensures !zero ==> k == n + if SaidAway(storage.Db(), call.room, me) then 1 else 4
  {
    hide Alone, CounterpartIsStale, CloseProposed, ExtendProposed, RosterOf, LatestFromOther, SaidAway, OthersDark,
        CloseAwaits, ExtendAwaits, Accompanied;
    ghost var e := storage.Db();
    k := n;
    AwayIsLatest(e, call.room, me);
    forall i ensures Agrees(e, call.room, me, i) { WaitChecks(e, call.room, me, i); }
    AloneEnters(d, id, call, clock, k, e, room, me, row, ReadAwaySignal);
    var latest := storage.LatestMessageFromOther(call.room, me);
    k := k + 1;
    if latest.Some? && latest.value.kind.WaitingUser? {
      return !call.op.patient, k;
    }
    var roster := storage.ListParticipants(call.room);
    AloneEnters(d, id, call, clock, k, e, room, me, row, CheckStale);
    assert Agrees(e, call.room, me, clock(k).now);
    var stale := CheckCounterpartIsStale(roster, me, clock(k).now);
    k := k + 1;
    if stale {
      return true, k;
    }
    AloneEnters(d, id, call, clock, k, e, room, me, row, CheckClose);
    assert Agrees(e, call.room, me, clock(k).now);
    var close := CheckCloseProposed(roster, me, clock(k).now);
    k := k + 1;
    if close {
      return true, k;
    }
    AloneEnters(d, id, call, clock, k, e, room, me, row, CheckExtend);
    assert Agrees(e, call.room, me, clock(k).now);
    var extend := CheckExtendProposed(roster, me, clock(k).now);
    zero, k := extend || !call.op.patient, k + 1;
  }

  /** The checks say of the tables what they are meant to. */
  ghost predicate Agrees(d: Db, room: RoomId, me: Handle, now: Time) {
    && (CounterpartIsStale(RosterOf(d, room), me, now) <==> OthersDark(d, room, me, now))
    && (CloseProposed(RosterOf(d, room), me, now) <==> CloseAwaits(d, room, me, now))
    && (ExtendProposed(RosterOf(d, room), me, now) <==> ExtendAwaits(d, room, me, now))
  }

  lemma CompanyIsOthers(d: Db, room: RoomId, me: Handle)
    ensures Accompanied(d, room, me) <==> exists h :: h in RosterOf(d, room) && h != me
  {
    assert forall h :: h in RosterOf(d, room) <==> h in d.participants && d.participants[h].room == room;
  }

  /** The last steps before the park: liveness once more, then the subscription, before the first look at the inbox. */
  method Register(storage: Store.Storage, ghost d: Db, id: RequestId, call: Call, clock: Clock, room: Room, me: Handle,
                  row: nat, zero: bool, n: nat)
    returns (k: nat)
    requires call.op.Wait?
    requires Alone(d, id, call, clock, n) == (storage.Db(), Goto(Entering(room, me, row, TouchPoll(zero))))
    modifies storage
    ensures Alone(d, id, call, clock, k) == (storage.Db(), Goto(Waiting(me, row, zero, ReadCursor))) && k == n + 2
    ensures storage.Db() == TouchLastPoll(old(storage.Db()), me, clock(n).now)
  {
    hide Alone, TouchLastPoll, RosterOf;
    AloneEnters(d, id, call, clock, n, storage.Db(), room, me, row, TouchPoll(zero));
    storage.TouchLastPoll(me, clock(n).now);
    AloneEnters(d, id, call, clock, n + 1, storage.Db(), room, me, row, WaitStep.Subscribe(zero));
    k := n + 2;
  }

  method CheckAccompanied(storage: Store.Storage, ghost d: Db, id: RequestId, call: Call, clock: Clock, room: Room,
                          me: Handle, row: nat, n: nat)
    returns (accompanied: bool)
    requires call.op.Wait? && Alone(d, id, call, clock, n)
      == (storage.Db(), Goto(Entering(room, me, row, CheckCounterpart)))
    ensures Alone(d, id, call, clock, n + 1)
            == (storage.Db(), if accompanied then Goto(Entering(room, me, row, ReadAwaySignal)) else Finish)
    ensures accompanied <==> Accompanied(storage.Db(), call.room, me)
  {
    hide Alone, RosterOf, Accompanied;
    CompanyIsOthers(storage.Db(), call.room, me);
    AloneEnters(d, id, call, clock, n, storage.Db(), room, me, row, CheckCounterpart);
    var roster := storage.ListParticipants(call.room);
    accompanied := HasCounterpart(roster, me);
  }

  lemma TouchedTwice(d: Db, me: Handle, first: Time, second: Time)
    ensures TouchLastPoll(TouchLastPoll(d, me, first), me, second) == TouchLastPoll(d, me, second)
  {
    var once := TouchLastPoll(d, me, first);
    if me in d.participants {
      var p := d.participants[me].(lastPollAt := second);
      assert once.participants[me := p] == d.participants[me := p];
    }
  }

  lemma StillThere(d: Db, room: RoomId, me: Handle, at: Time)
    requires HasHandle(d, room, me)
    ensures HasHandle(TouchLastPoll(d, me, at), room, me)
  {
  }

  /** The way to the park. `polled` is the step that last noted the poll. */
  method EnterWait(storage: Store.Storage, ghost d: Db, id: RequestId, call: Call, clock: Clock, room: Room,
                   me: Handle, row: nat, n: nat)
    returns (goesOn: bool, zero: bool, k: nat, ghost polled: nat)
    requires call.op.Wait? && Alone(d, id, call, clock, n) == (storage.Db(), Goto(Entering(room, me, row, Refresh)))
    requires HasHandle(storage.Db(), call.room, me)
    modifies storage
    ensures if goesOn then Alone(d, id, call, clock, k) == (storage.Db(), Goto(Waiting(me, row, zero, ReadCursor)))
            else Alone(d, id, call, clock, k) == (storage.Db(), Finish)
    ensures storage.Db() == TouchLastPoll(old(storage.Db()), me, clock(polled).now)
    ensures n <= polled < k && (polled == n <==> !goesOn)
    ensures goesOn <==> !room.state.Writable() || Accompanied(old(storage.Db()), call.room, me)
    ensures goesOn && !room.state.Writable() ==> zero
    ensures goesOn && room.state.Writable() ==>
      (zero <==> Cut(old(storage.Db()), call.room, me, call.op.patient, clock(n + 3).now, clock(n + 4).now,
                     clock(n + 5).now))
    ensures goesOn && !zero ==> k == n + 2 + if SaidAway(old(storage.Db()), call.room, me) then 3 else 6
  {
    hide Alone, TouchLastPoll, RosterOf, Accompanied, SaidAway, OthersDark, CloseAwaits, ExtendAwaits, HasHandle;
    ghost var start := storage.Db();
    polled := n;
    StillThere(start, call.room, me, clock(n).now);
    PollChangesNothing(start, call.room, me, clock(n).now) by { HasRow(start, call.room, me); }
    AloneEnters(d, id, call, clock, n, start, room, me, row, Refresh);
    storage.TouchLastPoll(me, clock(n).now);
    k := n + 1;
    zero := true;
    if room.state.Writable() {
      var accompanied := CheckAccompanied(storage, d, id, call, clock, room, me, row, k);
      k := k + 1;
      if !accompanied {
        return false, true, k, polled;
      }
      zero, k := DecidePark(storage, d, id, call, clock, room, me, row, k);
    }
    polled := k;
    TouchedTwice(start, me, clock(n).now, clock(k).now);
    k := Register(storage, d, id, call, clock, room, me, row, zero, k);
    goesOn := true;
  }

  lemma HasRow(d: Db, room: RoomId, me: Handle)
    requires HasHandle(d, room, me)
    ensures me in d.participants
  {
  }

  /** One attempt to claim. Without a message the waiter has either run out of time or looks for a reason to yield. */
  method TryClaim(storage: Store.Storage, ghost d: Db, id: RequestId, call: Call, clock: Clock, me: Handle, row: nat,
                  zero: bool, n: nat)
    returns (message: Option<nat>, expired: bool, k: nat)
    requires call.op.Wait? && Alone(d, id, call, clock, n) == (storage.Db(), Goto(Waiting(me, row, zero, ReadCursor)))
    modifies storage
    ensures (storage.Db(), message) == Store.ClaimNext(old(storage.Db()), call.room, me)
    ensures message.Some? || expired ==> Alone(d, id, call, clock, k) == (storage.Db(), Finish)
    ensures message.None? && !expired
      ==> Alone(d, id, call, clock, k) == (storage.Db(), Goto(Waiting(me, row, zero, YieldOnRoom)))
    ensures k > n && (me in old(storage.participants) && message.None? ==>
        k == n + 2 && (expired <==> zero || clock(n + 1).expired))
  {
    hide Alone, Tables.AdvanceCursor, Tables.NextUnread;
    k := n;
    AloneWaits(d, id, call, clock, k, storage.Db(), me, row, zero, ReadCursor);
    expired := zero || clock(k).expired;
    k := k + 1;
    if me !in storage.participants {
      return None, expired, k;
    }
    var cursor := storage.participants[me].cursor;
    AloneWaits(d, id, call, clock, k, storage.Db(), me, row, zero, ReadUnread(cursor));
    message := storage.NextUnread(call.room, me, cursor);
    expired := zero || clock(k).expired;
    k := k + 1;
    if message.Some? {
      AloneWaits(d, id, call, clock, k, storage.Db(), me, row, zero, WaiterStage.SwapCursor(cursor, message.value));
      var swapped := storage.AdvanceCursor(me, cursor, message.value);
      SwapSucceeds(old(storage.Db()), me, cursor, message.value);
      k := k + 1;
    }
  }

  lemma SwapSucceeds(d: Db, h: Handle, cursor: nat, k: nat)
    requires h in d.participants && d.participants[h].cursor == cursor
    ensures AdvanceCursor(d, h, cursor, k).1
  {
  }

  /** Whether something happened that the waiter must tell its client about. */
  method ShouldYield(storage: Store.Storage, ghost d: Db, id: RequestId, call: Call, clock: Clock, me: Handle,
                     row: nat, zero: bool, n: nat)
    returns (stops: bool, stage: WaiterStage, k: nat)
    requires call.op.Wait? && Alone(d, id, call, clock, n) == (storage.Db(), Goto(Waiting(me, row, zero, YieldOnRoom)))
    requires HasHandle(storage.Db(), call.room, me)
    ensures if stops then Alone(d, id, call, clock, k) == (storage.Db(), Finish)
            else stage.Parked? && Alone(d, id, call, clock, k) == (storage.Db(), Goto(Waiting(me, row, zero, stage)))
    ensures stops <==>
      || (call.room in storage.rooms && storage.rooms[call.room].state in {Paused, Closed, Archived})
      || CloseAwaits(storage.Db(), call.room, me, clock(n + 1).now)
      || ExtendAwaits(storage.Db(), call.room, me, clock(n + 2).now)
    ensures k > n
  {
    hide Alone, CloseProposed, ExtendProposed, RosterOf, CounterpartIsStale, CloseAwaits, ExtendAwaits, OthersDark;
    ghost var e := storage.Db();
    stage := YieldOnRoom;
    k := n;
    WaitChecks(e, call.room, me, clock(n + 1).now);
    WaitChecks(e, call.room, me, clock(n + 2).now);
    AloneWaits(d, id, call, clock, k, e, me, row, zero, YieldOnRoom);
    var room := storage.GetRoom(call.room);
    k := k + 1;
    if room.Some? && !room.value.state.Writable() {
      return true, stage, k;
    }
    AloneWaits(d, id, call, clock, k, e, me, row, zero, YieldOnClose);
    var roster := storage.ListParticipants(call.room);
    var close := CheckCloseProposed(roster, me, clock(k).now);
    var sawClose := Sighting(roster, clock(k).now);
    k := k + 1;
    if close {
      return true, stage, k;
    }
    AloneWaits(d, id, call, clock, k, e, me, row, zero, YieldOnExtend(sawClose));
    var extend := CheckExtendProposed(roster, me, clock(k).now);
    stage := Parked(sawClose, Sighting(roster, clock(k).now));
    stops, k := extend, k + 1;
  }

  /** Sleeps until the deadline, which comes: nobody rings. */
  method Park(storage: Store.Storage, ghost d: Db, id: RequestId, call: Call, clock: Clock, me: Handle, row: nat,
              zero: bool, ghost stage: WaiterStage, n: nat, ghost patience: nat)
    returns (k: nat)
    requires call.op.Wait? && stage.Parked? && forall i: nat :: i >= patience ==> clock(i).expired
    requires Alone(d, id, call, clock, n) == (storage.Db(), Goto(Waiting(me, row, zero, stage)))
    ensures Alone(d, id, call, clock, k) == (storage.Db(), Finish) && k > n
  {
    hide Alone;
    k := n;
    while !clock(k).expired
      invariant Alone(d, id, call, clock, k) == (storage.Db(), Goto(Waiting(me, row, zero, stage))) && k >= n
      decreases patience - k
    {
      AloneWaits(d, id, call, clock, k, storage.Db(), me, row, zero, stage);
      k := k + 1;
    }
    AloneWaits(d, id, call, clock, k, storage.Db(), me, row, zero, stage);
    k := k + 1;
  }

  /** What an undisturbed long-poll that came in after `entered` steps has to find, at its clock readings, to go to
      sleep: a room that takes traffic with somebody else in it, no message, nothing that cuts its park, a deadline
      still ahead when it has looked, and then no proposal either. */
  ghost predicate GoesToSleep(d: Db, call: Call, me: Handle, clock: Clock, entered: nat)
    requires call.op.Wait?
  {
    var looks := entered + if SaidAway(d, call.room, me) then 6 else 9;
    && call.room in d.rooms && d.rooms[call.room].state in {Active, Idle, Stale} && Accompanied(d, call.room, me)
    && NothingFor(d, call.room, me)
    && !Cut(d, call.room, me, call.op.patient, clock(entered + 3).now, clock(entered + 4).now, clock(entered + 5).now)
    && !clock(looks).expired
    && !CloseAwaits(d, call.room, me, clock(looks + 2).now) && !ExtendAwaits(d, call.room, me, clock(looks + 3).now)
  }

  /** The machine is asleep after some of its first k steps. */
  ghost predicate Slept(d: Db, id: RequestId, call: Call, clock: Clock, k: nat) {
    exists n: nat :: n < k && IsAsleep(Alone(d, id, call, clock, n).1)
  }

  ghost predicate IsAsleep(next: Next) {
    next.Goto? && next.pc.Waiting? && next.pc.stage.Parked?
  }

  lemma ItSlept(d: Db, id: RequestId, call: Call, clock: Clock, n: nat, k: nat)
    requires n < k && IsAsleep(Alone(d, id, call, clock, n).1)
    ensures Slept(d, id, call, clock, k)
  {
  }

  lemma CameAlone(d: Db, room: RoomId, me: Handle, at: Time)
    requires me in d.participants && AloneInOpen(d, room, me)
    ensures WaitCame(d, TouchLastPoll(d, me, at), room, me, at, None)
  {
    hide AloneInOpen;
  }

  lemma TouchedInbox(d: Db, room: RoomId, me: Handle, at: Time)
    requires HasHandle(d, room, me)
    ensures var d' := TouchLastPoll(d, me, at);
      && HasHandle(d', room, me) && d'.messages == d.messages && d'.rooms == d.rooms
      && d'.participants[me].cursor == d.participants[me].cursor
  {
  }

  /** From the first look at the inbox on: a message, or the deadline, or a reason to yield, or sleep until the
      deadline. */
  method ClaimOrSleep(storage: Store.Storage, ghost d: Db, id: RequestId, call: Call, clock: Clock, me: Handle,
                      row: nat, zero: bool, n: nat, ghost at: Time, ghost patience: nat)
    returns (message: Option<nat>, k: nat, ghost slept: bool)
    requires call.op.Wait? && forall i: nat :: i >= patience ==> clock(i).expired
    requires Alone(d, id, call, clock, n) == (storage.Db(), Goto(Waiting(me, row, zero, ReadCursor)))
    requires storage.Db() == TouchLastPoll(d, me, at) && HasHandle(d, call.room, me) && call.room in d.rooms
    requires !AloneInOpen(d, call.room, me) && (d.rooms[call.room].state in {Paused, Closed, Archived} ==> zero)
    modifies storage
    ensures Alone(d, id, call, clock, k) == (storage.Db(), Finish) && k > n
    ensures WaitCame(d, storage.Db(), call.room, me, at, message)
    ensures slept <==>
      && !zero && NothingFor(d, call.room, me) && !clock(n + 1).expired
      && !CloseAwaits(d, call.room, me, clock(n + 3).now) && !ExtendAwaits(d, call.room, me, clock(n + 4).now)
    ensures slept ==> Slept(d, id, call, clock, k)
  {
    hide Alone, CloseAwaits, ExtendAwaits, AloneInOpen, WaitCame, IsNextFor, NothingFor, TouchLastPoll, HasHandle,
        AdvanceCursor, NextUnread, SaidAway, Accompanied, OthersDark, Slept;
    HasRow(d, call.room, me);
    TouchedInbox(d, call.room, me, at);
    HasRow(storage.Db(), call.room, me);
    ClaimCame(d, call.room, me, at);
    NextIsNext(d, call.room, me);
    PollChangesNothing(d, call.room, me, at);
    slept := false;
    var expired;
    message, expired, k := TryClaim(storage, d, id, call, clock, me, row, zero, n);
    if message.Some? || expired {
      return;
    }
    var stops, stage;
    stops, stage, k := ShouldYield(storage, d, id, call, clock, me, row, zero, k);
    if !stops {
      ghost var asleep := k;
      k := Park(storage, d, id, call, clock, me, row, zero, stage, k, patience);
      ItSlept(d, id, call, clock, asleep, k);
      slept := true;
    }
  }

  /** A whole long-poll, with a clock on which the deadline passes at some step. Refused only to a stranger. It notes
      the poll, again once it has company or a halted room, hands over the next message for the caller, and comes back
      empty-handed exactly if there is none, or if the caller is the only one in a room that takes traffic: then it
      leaves even waiting messages alone. It sleeps exactly if it has to. */
  method WaitRoom(storage: Store.Storage, id: RequestId, call: Call, clock: Clock, ghost patience: nat)
    returns (reply: Result<Option<nat>, ApiError>, k: nat, ghost me: Handle, ghost entered: nat, ghost polled: nat,
             ghost slept: bool)
    requires RowsUnique(storage.Db()) && call.op.Wait? && forall i: nat :: i >= patience ==> clock(i).expired
    modifies storage
    ensures Alone(old(storage.Db()), id, call, clock, k) == (storage.Db(), Finish)
    ensures reply.Err? <==> Unserved(old(storage.Db()), call.room, call.instance)
    ensures reply.Err? ==> storage.Db() == old(storage.Db())
    ensures reply.Ok? ==>
      && Stands(old(storage.Db()), call.room, call.instance, me)
      && WaitCame(old(storage.Db()), storage.Db(), call.room, me, clock(polled).now, reply.value)
      && entered <= polled < k && (polled == entered <==> AloneInOpen(old(storage.Db()), call.room, me))
    ensures reply.Ok? ==> (slept <==> GoesToSleep(old(storage.Db()), call, me, clock, entered))
    ensures slept ==> Slept(old(storage.Db()), id, call, clock, k)
  {
    hide Alone, Found, RowsUnique, Stands, Unserved, WaitCame, Cut, SaidAway, CloseAwaits, ExtendAwaits, Accompanied,
        NothingFor, Slept;
    ghost var d := storage.Db();
    me, entered, polled, slept := "", 0, 0, false;
    var entry;
    entry, k := Admit(storage, id, call, clock);
    if entry.Err? {
      return Err(entry.error), k, me, entered, polled, slept;
    }
    var (room, caller) := entry.value;
    me, entered := caller, k;
    FoundWaits(d, call, room, caller, clock(k - 1));
    var row := storage.participants[caller].row;
    var goesOn, zero;
    goesOn, zero, k, polled := EnterWait(storage, d, id, call, clock, room, caller, row, k);
    if !goesOn {
      CameAlone(d, call.room, caller, clock(polled).now);
      return Ok(None), k, me, entered, polled, slept;
    }
    var message;
    message, k, slept := ClaimOrSleep(storage, d, id, call, clock, caller, row, zero, k, clock(polled).now, patience);
    reply := Ok(message);
  }

  // ---- waking up ----

  /** n steps of a sleeping waiter that a ping wakes, with nothing in between. */
  ghost function Woken(d: Db, id: RequestId, call: Call, asleep: Pc, clock: Clock, n: nat): (Db, Next) {
    if n == 0 then (d, Goto(asleep))
    else
      var (e, next) := Woken(d, id, call, asleep, clock, n - 1);
      if next.Goto? && Fits(call, next.pc) then Advance(e, id, Request(call, next.pc), n == 1, clock(n - 1))
      else (e, next)
  }

  lemma WokenWaits(d: Db, id: RequestId, call: Call, asleep: Pc, clock: Clock, n: nat, e: Db, me: Handle, row: nat,
                   stage: WaiterStage)
    requires call.op.Wait? && Woken(d, id, call, asleep, clock, n) == (e, Goto(Waiting(me, row, false, stage)))
    ensures Woken(d, id, call, asleep, clock, n + 1)
            == WaiterNext(e, call, me, row, false, stage, n == 0, clock(n))
  {
    hide WaiterNext;
    WokenStep(d, id, call, asleep, clock, n);
    WaitsByStage(e, id, call, me, row, stage, n == 0, clock(n));
  }

  lemma WokenStep(d: Db, id: RequestId, call: Call, asleep: Pc, clock: Clock, n: nat)
    ensures var (e, next) := Woken(d, id, call, asleep, clock, n);
      next.Goto? && Fits(call, next.pc) ==>
        Woken(d, id, call, asleep, clock, n + 1) == Advance(e, id, Request(call, next.pc), n == 0, clock(n))
  {
    hide Advance, Fits;
  }

  lemma WaitsByStage(e: Db, id: RequestId, call: Call, me: Handle, row: nat, stage: WaiterStage, pinged: bool, t: Tick)
    requires call.op.Wait?
    ensures Advance(e, id, Request(call, Waiting(me, row, false, stage)), pinged, t)
            == WaiterNext(e, call, me, row, false, stage, pinged, t)
  {
    hide WaiterNext;
  }

  /** A waiter that is woken with its deadline still ahead looks again: it takes the next message if there is one.
      Otherwise it goes back to sleep if and only if the room still takes traffic and no proposal waits for it. */
  lemma WokenLooksAgain(d: Db, id: RequestId, call: Call, me: Handle, row: nat, stage: WaiterStage, clock: Clock)
    requires call.op.Wait? && stage.Parked? && HasHandle(d, call.room, me) && call.room in d.rooms
    requires forall i: nat :: i < 6 ==> !clock(i).expired
    ensures forall m :: IsNextFor(d, call.room, me, m) ==>
      var p := d.participants[me];
      Woken(d, id, call, Waiting(me, row, false, stage), clock, 4)
      == (d.(participants := d.participants[me := p.(cursor := m, claimed := p.claimed + [m])]), Finish)
    ensures NothingFor(d, call.room, me) ==>
      (IsAsleep(Woken(d, id, call, Waiting(me, row, false, stage), clock, 6).1) <==>
       && d.rooms[call.room].state in {Active, Idle, Stale}
       && !CloseAwaits(d, call.room, me, clock(4).now) && !ExtendAwaits(d, call.room, me, clock(5).now))
  {
    hide Woken, CloseAwaits, ExtendAwaits, CloseProposed, ExtendProposed, CounterpartIsStale, OthersDark, RosterOf,
        NextUnread;
    var asleep, cursor := Waiting(me, row, false, stage), d.participants[me].cursor;
    NextIsNext(d, call.room, me);
    WaitChecks(d, call.room, me, clock(4).now);
    WaitChecks(d, call.room, me, clock(5).now);
    assert Woken(d, id, call, asleep, clock, 0) == (d, Goto(asleep)) by { WokenStarts(d, id, call, asleep, clock); }
    WokenWaits(d, id, call, asleep, clock, 0, d, me, row, stage);
    WokenWaits(d, id, call, asleep, clock, 1, d, me, row, ReadCursor);
    WokenWaits(d, id, call, asleep, clock, 2, d, me, row, ReadUnread(cursor));
    var next := NextUnread(d.messages, call.room, me, cursor);
    if next.Some? {
      WokenWaits(d, id, call, asleep, clock, 3, d, me, row, WaiterStage.SwapCursor(cursor, next.value));
    } else {
      WokenYields(d, id, call, asleep, clock, me, row);
    }
  }

  lemma WokenStarts(d: Db, id: RequestId, call: Call, asleep: Pc, clock: Clock)
    ensures Woken(d, id, call, asleep, clock, 0) == (d, Goto(asleep))
  {
  }

  lemma WokenStays(d: Db, id: RequestId, call: Call, asleep: Pc, clock: Clock, n: nat)
    ensures var (e, next) := Woken(d, id, call, asleep, clock, n);
      !next.Goto? ==> Woken(d, id, call, asleep, clock, n + 1) == (e, next)
  {
    hide Advance;
  }

  lemma WokenYields(d: Db, id: RequestId, call: Call, asleep: Pc, clock: Clock, me: Handle, row: nat)
    requires call.op.Wait? && call.room in d.rooms
    requires Woken(d, id, call, asleep, clock, 3) == (d, Goto(Waiting(me, row, false, YieldOnRoom)))
    ensures IsAsleep(Woken(d, id, call, asleep, clock, 6).1) <==>
      && d.rooms[call.room].state in {Active, Idle, Stale}
      && !CloseProposed(RosterOf(d, call.room), me, clock(4).now)
      && !ExtendProposed(RosterOf(d, call.room), me, clock(5).now)
  {
    hide Woken, CloseProposed, ExtendProposed, RosterOf;
    WokenWaits(d, id, call, asleep, clock, 3, d, me, row, YieldOnRoom);
    WokenStays(d, id, call, asleep, clock, 4);
    WokenStays(d, id, call, asleep, clock, 5);
    if d.rooms[call.room].state.Writable() {
      WokenWaits(d, id, call, asleep, clock, 4, d, me, row, YieldOnClose);
      if !CloseProposed(RosterOf(d, call.room), me, clock(4).now) {
        WokenWaits(d, id, call, asleep, clock, 5, d, me, row,
                   YieldOnExtend(Sighting(RosterOf(d, call.room), clock(4).now)));
      }
    }
  }
}
