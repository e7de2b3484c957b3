/** The request handlers as straight code over the storage. Each is proved to do, when nothing interferes, what the
    request machine does step by step. */
module Handlers {
  import opened Wrappers
  import opened Lifecycle
  import opened Tables
  import opened Protocol
  import opened Evolution
  import opened Outcomes
  import Identity
  import Store = Storage

  datatype ApiError = NotFound | BadRequest | Refused

  /** The clock readings and draws of one request, by the number of the step that makes them. */
  type Clock = nat -> Tick

  /** The first n steps of a request with nothing in between. */
  ghost function Alone(d: Db, id: RequestId, call: Call, clock: Clock, n: nat): (Db, Next) {
    if n == 0 then (d, Goto(LoadRoom))
    else
      var (e, next) := Alone(d, id, call, clock, n - 1);
      if next.Goto? && Fits(call, next.pc) then Advance(e, id, Request(call, next.pc), false, clock(n - 1))
          else (e, next)
  }

  lemma AloneStep(d: Db, id: RequestId, call: Call, clock: Clock, n: nat, e: Db, pc: Pc)
    ensures Alone(d, id, call, clock, n) == (e, Goto(pc)) && Fits(call, pc) ==>
      Alone(d, id, call, clock, n + 1) == Advance(e, id, Request(call, pc), false, clock(n))
  {
  }

  /** The request has ended after n steps with these tables, and rung exactly if it succeeded. */
  ghost predicate Ends(d: Db, id: RequestId, call: Call, clock: Clock, n: nat, d': Db, ok: bool) {
    var (e, next) := Alone(d, id, call, clock, n);
    e == d' && if ok then next.Ring? else next.Finish? || next.Conflict?
  }

  /** One of the first k clock readings. */
  ghost predicate Read(clock: Clock, k: nat, at: Time) {
    exists i: nat :: i < k && at == clock(i).now
  }

  lemma ReadOn(clock: Clock, k: nat, longer: nat, at: Time)
    requires Read(clock, k, at) && k <= longer
    ensures Read(clock, longer, at)
  {
    var i: nat :| i < k && at == clock(i).now;
  }

  /** The row an instance string stands for: its own, or failing that the one with this handle. */
  method ResolveParticipant(storage: Store.Storage, room: RoomId, instance: string)
    returns (me: Option<Handle>, byHandle: bool)
    requires RowsUnique(storage.Db())
    ensures var d := storage.Db();
      if ByInstance(d, room, instance).Some? then me == ByInstance(d, room, instance) && !byHandle
      else byHandle && me == if HasHandle(d, room, instance) then Some(instance) else None
  {
    me := storage.GetParticipantByInstance(room, instance);
    byHandle := me.None?;
    if byHandle {
      me := storage.GetParticipantByHandle(room, instance);
    }
  }

  /** The guard and the lookup every participant's request begins with. `k` is the number of steps they take. */
  method Admit(storage: Store.Storage, id: RequestId, call: Call, clock: Clock)
    returns (entry: Result<(Room, Handle), ApiError>, k: nat)
    requires RowsUnique(storage.Db()) && !call.op.Join? && !call.op.Prune? && !call.op.Sweep?
    ensures var d := storage.Db();
      match entry
      case Ok((room, me)) =>
        && me in d.participants && call.room in d.rooms && room == d.rooms[call.room] && Admits(call.op, room.state)
            && k > 0
        && Stands(d, call.room, call.instance, me) && HasHandle(d, call.room, me)
        && !Unserved(d, call.room, call.instance) && Read(clock, k, clock(k - 1).now)
        && Alone(d, id, call, clock, k) == (d, Found(d, call, room, me, clock(k - 1)))
      case Err(_) =>
        && (Unserved(d, call.room, call.instance) || !Admits(call.op, d.rooms[call.room].state))
        && Alone(d, id, call, clock, k) == (d, Finish) && Ends(d, id, call, clock, k, d, false)
  {
    ghost var d := storage.Db();
    hide Found, Stands, Stranger;
    WhoStands(d, call.room, call.instance);
    AloneStep(d, id, call, clock, 0, d, LoadRoom);
    var found := storage.GetRoom(call.room);
    if found.None? {
      return Err(NotFound), 1;
    }
    var room := found.value;
    if !Admits(call.op, room.state) {
      return Err(Refused), 1;
    }
    AloneStep(d, id, call, clock, 1, d, FindInstance(room));
    var me, byHandle := ResolveParticipant(storage, call.room, call.instance);
    if byHandle {
      AloneStep(d, id, call, clock, 2, d, FindHandle(room));
    }
    k := if byHandle then 3 else 2;
    if me.None? {
      return Err(BadRequest), k;
    }
    entry := Ok((room, me.value));
  }

  lemma AloneSends(d: Db, id: RequestId, call: Call, clock: Clock, n: nat, e: Db, room: Room, me: Handle,
                   step: SendStep)
    requires Alone(d, id, call, clock, n) == (e, Goto(Sending(room, me, step))) && call.op.Send?
    ensures Alone(d, id, call, clock, n + 1) == SendNext(e, id, call, room, me, step, clock(n))
  {
    AloneStep(d, id, call, clock, n, e, Sending(room, me, step));
    hide Alone, SendNext;
  }

  lemma AloneRings(d: Db, id: RequestId, call: Call, clock: Clock, n: nat, e: Db)
    requires Alone(d, id, call, clock, n) == (e, Goto(Notifying)) && Fits(call, Notifying)
    ensures Ends(d, id, call, clock, n + 1, e, true)
  {
    AloneStep(d, id, call, clock, n, e, Notifying);
    hide Alone;
  }

  lemma AloneFails(d: Db, id: RequestId, call: Call, clock: Clock, n: nat)
    requires var next := Alone(d, id, call, clock, n).1; next.Finish? || next.Conflict?
    ensures Ends(d, id, call, clock, n, Alone(d, id, call, clock, n).0, false)
  {
    hide Alone;
  }

  lemma FoundSends(d: Db, call: Call, room: Room, me: Handle, t: Tick)
    requires me in d.participants && call.op.Send?
    ensures Found(d, call, room, me, t)
      == Goto(Sending(room, me, if call.op.to.Some? then CheckRecipient else InsertCapped))
  {
  }

  /** Refused in a room that takes no traffic, to a stranger, for a recipient who is not there, and at the cap; then
      nothing is written. Otherwise the message lands with all that follows from it. */
  method SendMessage(storage: Store.Storage, id: RequestId, call: Call, clock: Clock)
    returns (reply: Result<nat, ApiError>, k: nat, ghost me: Handle, ghost at: Time)
    requires RowsUnique(storage.Db()) && call.op.Send?
    modifies storage
    ensures Ends(old(storage.Db()), id, call, clock, k, storage.Db(), reply.Ok?)
    ensures reply.Err? <==> SendRefused(old(storage.Db()), call.room, call.instance, call.op.to)
    ensures reply.Err? ==> storage.Db() == old(storage.Db())
    ensures reply.Ok? ==>
      && reply.value == |storage.messages|
      && Stands(old(storage.Db()), call.room, call.instance, me) && Read(clock, k, at)
      && Sent(old(storage.Db()), storage.Db(), Message(call.room, me, call.op.to, Msg, call.op.fromHuman, at, id))
  {
    ghost var d := storage.Db();
    hide Alone, Found, Ends, RowsUnique, Sent, Read, TalkIn, Stands, Unserved;
    me, at := "", 0;
    var entry;
    entry, k := Admit(storage, id, call, clock);
    if entry.Err? {
      return Err(entry.error), k, me, at;
    }
    var (room, sender) := entry.value;
    me := sender;
    FoundSends(d, call, room, sender, clock(k - 1));
    reply, k, at := SendAs(storage, d, id, call, clock, room, sender, k);
  }

  ghost predicate RecipientUnknown(d: Db, room: RoomId, to: Option<Handle>) {
    to.Some? && !HasHandle(d, room, to.value)
  }

  method SendAs(storage: Store.Storage, ghost d: Db, id: RequestId, call: Call, clock: Clock, room: Room, me: Handle,
                n: nat)
    returns (reply: Result<nat, ApiError>, k: nat, ghost at: Time)
    requires call.op.Send? && Alone(d, id, call, clock, n)
      == (storage.Db(), Goto(Sending(room, me, if call.op.to.Some? then CheckRecipient else InsertCapped)))
    requires call.room in storage.rooms && room == storage.rooms[call.room] && me in storage.participants
    modifies storage
    ensures Ends(d, id, call, clock, k, storage.Db(), reply.Ok?)
    ensures reply.Err? <==> RecipientUnknown(old(storage.Db()), call.room, call.op.to)
                            || |TalkIn(old(storage.messages), call.room)| >= room.hardCap
    ensures reply.Err? ==> storage.Db() == old(storage.Db())
    ensures reply.Ok? ==>
      && reply.value == |storage.messages| && Read(clock, k, at)
      && Sent(old(storage.Db()), storage.Db(), Message(call.room, me, call.op.to, Msg, call.op.fromHuman, at, id))
  {
    hide Alone, Ends, Sent, Read, TalkIn;
    k, at := n, 0;
    if call.op.to.Some? {
      var known := CheckedRecipient(storage, d, id, call, clock, room, me, k);
      k := k + 1;
      if !known {
        return Err(BadRequest), k, at;
      }
    }
    var landed;
    landed, k, at := LandMessage(storage, d, id, call, clock, room, me, k);
    reply := if landed then Ok(|storage.messages|) else Err(Refused);
  }

  method CheckedRecipient(storage: Store.Storage, ghost d: Db, id: RequestId, call: Call, clock: Clock, room: Room,
                          me: Handle, n: nat)
    returns (known: bool)
    requires call.op.Send? && call.op.to.Some?
    requires Alone(d, id, call, clock, n) == (storage.Db(), Goto(Sending(room, me, CheckRecipient)))
    ensures known <==> HasHandle(storage.Db(), call.room, call.op.to.value)
    ensures if known then Alone(d, id, call, clock, n + 1) == (storage.Db(), Goto(Sending(room, me, InsertCapped)))
            else Ends(d, id, call, clock, n + 1, storage.Db(), false)
  {
    hide Alone;
    AloneSends(d, id, call, clock, n, storage.Db(), room, me, CheckRecipient);
    var roster := storage.ListParticipants(call.room);
    known := call.op.to.value in roster;
  }

  /** The insert against the cap read on entry, and what follows if it lands. */
  method LandMessage(storage: Store.Storage, ghost d: Db, id: RequestId, call: Call, clock: Clock, room: Room,
                     me: Handle, n: nat)
    returns (landed: bool, k: nat, ghost at: Time)
    requires call.op.Send? && Alone(d, id, call, clock, n) == (storage.Db(), Goto(Sending(room, me, InsertCapped)))
    requires call.room in storage.rooms && room == storage.rooms[call.room] && me in storage.participants
    modifies storage
    ensures Ends(d, id, call, clock, k, storage.Db(), landed)
    ensures landed <==> |TalkIn(old(storage.messages), call.room)| < room.hardCap
    ensures !landed ==> storage.Db() == old(storage.Db())
    ensures landed ==>
      && Read(clock, k, at) && |storage.messages| == |old(storage.messages)| + 1
      && Sent(old(storage.Db()), storage.Db(), Message(call.room, me, call.op.to, Msg, call.op.fromHuman, at, id))
  {
    hide Alone, Ends, TalkIn, Sent;
    k := n;
    var now := clock(k).now;
    ghost var before := storage.Db();
    var m := Message(call.room, me, call.op.to, Msg, call.op.fromHuman, now, id);
    at := now;
    CountIsTalk(before.messages, call.room);
    AloneSends(d, id, call, clock, k, storage.Db(), room, me, InsertCapped);
    landed := storage.CreateMessageCapped(m, room.hardCap);
    k := k + 1;
    if landed {
      k := SettleSend(storage, d, before, id, call, clock, room, m, k);
    } else {
      AloneFails(d, id, call, clock, k);
    }
  }

  /** What a landed message entails: the sender's own votes go, the room was used, and an idle or stale one wakes. */
  method SettleSend(storage: Store.Storage, ghost d: Db, ghost before: Db, id: RequestId, call: Call, clock: Clock,
                    room: Room, m: Message, n: nat)
    returns (k: nat)
    requires call.op.Send? && m.room == call.room && m.sentBy == id && storage.Db() == Append(before, m)
    requires call.room in before.rooms && room == before.rooms[call.room] && m.sender in before.participants
    requires Alone(d, id, call, clock, n) == (storage.Db(), Goto(Sending(room, m.sender, DropCloseVote(m.createdAt))))
    modifies storage
    ensures Ends(d, id, call, clock, k, storage.Db(), true) && k > n && storage.messages == old(storage.messages)
    ensures Sent(before, storage.Db(), m)
  {
    hide Alone, Ends, Sent, Append, RetractCloseVote, Tables.ClearExtendVote, TouchLastActivity;
    var me, now := m.sender, m.createdAt;
    StatementsOfSend(before, m);
    AloneSends(d, id, call, clock, n, storage.Db(), room, me, DropCloseVote(now));
    storage.SetCloseVote(me, None, id);
    AloneSends(d, id, call, clock, n + 1, storage.Db(), room, me, DropExtendVote(now));
    storage.ClearExtendVote(me);
    AloneSends(d, id, call, clock, n + 2, storage.Db(), room, me, TouchActivity(now));
    storage.TouchLastActivity(call.room, now);
    k := n + 3;
    if room.state.Idle? || room.state.Stale? {
      AloneSends(d, id, call, clock, k, storage.Db(), room, me, Revive(now));
      var _ := storage.UpdateRoomState(call.room, room.state, Active, now, Routine, id);
      k := k + 1;
    }
    AloneRings(d, id, call, clock, k, storage.Db());
    k := k + 1;
  }

  // ---- signals ----

  lemma AloneSignals(d: Db, id: RequestId, call: Call, clock: Clock, n: nat, e: Db, room: Room, me: Handle,
                     step: SignalStep)
    requires Alone(d, id, call, clock, n) == (e, Goto(Signalling(room, me, step))) && call.op.Signal?
        && IsSentinel(call.op.kind)
    ensures Alone(d, id, call, clock, n + 1) == SignalNext(e, id, call, room, me, step)
  {
    AloneStep(d, id, call, clock, n, e, Signalling(room, me, step));
    hide Alone, SignalNext;
  }

  lemma FoundSignals(d: Db, call: Call, room: Room, me: Handle, t: Tick)
    requires me in d.participants && call.op.Signal?
    ensures Found(d, call, room, me, t) ==
            if call.op.kind.BlockerRealWork? then
              (match Transition(room.state, OnPause)
               case Ok(after) => Goto(Signalling(room, me, PauseFirst(after, t.now)))
               case Err(_) => Finish)
            else if IsSentinel(call.op.kind) then Goto(Signalling(room, me, InsertSignal(t.now)))
            else Finish
  {
    hide Transition;
  }

  /** Refused in a room that takes no traffic, to a stranger, for anything but the three signals, and for a blocker
      where the room cannot be paused; then nothing is written. Otherwise the signal lands, behind the pause of a
      blocker. */
  method SignalRoom(storage: Store.Storage, id: RequestId, call: Call, clock: Clock)
    returns (reply: Result<nat, ApiError>, k: nat, ghost me: Handle, ghost at: Time)
    requires RowsUnique(storage.Db()) && call.op.Signal?
    modifies storage
    ensures Ends(old(storage.Db()), id, call, clock, k, storage.Db(), reply.Ok?)
    ensures reply.Err? <==> SignalRefused(old(storage.Db()), call.room, call.instance, call.op.kind)
    ensures reply.Err? ==> storage.Db() == old(storage.Db())
    ensures reply.Ok? ==>
      && reply.value == |storage.messages|
      && Stands(old(storage.Db()), call.room, call.instance, me) && Read(clock, k, at)
      && Signalled(old(storage.Db()), storage.Db(), Message(call.room, me, None, call.op.kind, false, at, id))
  {
    ghost var d := storage.Db();
    hide Alone, Ends, UpdateRoomState, Found, RowsUnique, Read, Stands, Unserved, Signalled;
    me, at := "", 0;
    var entry;
    entry, k := Admit(storage, id, call, clock);
    if entry.Err? {
      return Err(entry.error), k, me, at;
    }
    var (room, sender) := entry.value;
    var now := clock(k - 1).now;
    ghost var entered := k;
    me, at := sender, now;
    reply, k := SignalAs(storage, d, id, call, clock, room, sender, clock(k - 1), k);
    ReadOn(clock, entered, k, now);
  }

  method SignalAs(storage: Store.Storage, ghost d: Db, id: RequestId, call: Call, clock: Clock, room: Room, me: Handle,
                  t: Tick, n: nat)
    returns (reply: Result<nat, ApiError>, k: nat)
    requires call.op.Signal? && me in storage.participants
    requires call.room in storage.rooms && room == storage.rooms[call.room] && room.state.Writable()
    requires Alone(d, id, call, clock, n) == (storage.Db(), Found(storage.Db(), call, room, me, t))
    modifies storage
    ensures Ends(d, id, call, clock, k, storage.Db(), reply.Ok?) && k >= n
    ensures reply.Err? <==> !(call.op.kind.WaitingUser? || call.op.kind.Fold? || call.op.kind.BlockerRealWork?)
                            || (call.op.kind.BlockerRealWork? && room.state == Stale)
    ensures reply.Err? ==> storage.Db() == old(storage.Db())
    ensures reply.Ok? ==>
      && reply.value == |storage.messages|
      && Signalled(old(storage.Db()), storage.Db(), Message(call.room, me, None, call.op.kind, false, t.now, id))
  {
    hide Alone, Ends, Found;
    var kind := call.op.kind;
    k := n;
    FoundSignals(storage.Db(), call, room, me, t);
    if !IsSentinel(kind) {
      AloneFails(d, id, call, clock, k);
      return Err(BadRequest), k;
    }
    if kind.BlockerRealWork? {
      var pause := Transition(room.state, OnPause);
      if pause.Err? {
        AloneFails(d, id, call, clock, k);
        return Err(Refused), k;
      }
      var paused := PauseForBlocker(storage, d, id, call, clock, room, me, pause.value, t.now, k);
      k := k + 1;
      if !paused {
        return Err(Refused), k;
      }
    }
    k := PostSignal(storage, d, id, call, clock, room, me, t.now, k);
    reply := Ok(|storage.messages|);
  }

  /** The pause comes before the signal, and without it there is none. */
  method PauseForBlocker(storage: Store.Storage, ghost d: Db, id: RequestId, call: Call, clock: Clock, room: Room,
                         me: Handle, pause: RoomState, now: Time, n: nat)
    returns (paused: bool)
    requires call.op.Signal? && IsSentinel(call.op.kind) && pause != Archived
    requires Alone(d, id, call, clock, n) == (storage.Db(), Goto(Signalling(room, me, PauseFirst(pause, now))))
    modifies storage
    ensures paused ==> Alone(d, id, call, clock, n + 1) == (storage.Db(), Goto(Signalling(room, me, InsertSignal(now))))
    ensures !paused ==> Ends(d, id, call, clock, n + 1, storage.Db(), false) && storage.Db() == old(storage.Db())
    ensures paused <==> call.room in old(storage.rooms) && old(storage.rooms[call.room].state) == room.state
    ensures paused ==> Moved(old(storage.Db()), storage.Db(), call.room, pause, now, id)
  {
    hide Alone;
    AloneSignals(d, id, call, clock, n, storage.Db(), room, me, PauseFirst(pause, now));
    paused := storage.UpdateRoomState(call.room, room.state, pause, now, Routine, id);
  }

  method PostSignal(storage: Store.Storage, ghost d: Db, id: RequestId, call: Call, clock: Clock, room: Room,
                    me: Handle, now: Time, n: nat)
    returns (k: nat)
    requires call.op.Signal? && IsSentinel(call.op.kind)
    requires Alone(d, id, call, clock, n) == (storage.Db(), Goto(Signalling(room, me, InsertSignal(now))))
    modifies storage
    ensures Ends(d, id, call, clock, k, storage.Db(), true) && k > n
    ensures storage.Db() == Append(old(storage.Db()), Message(call.room, me, None, call.op.kind, false, now, id))
  {
    hide Alone, Ends;
    AloneSignals(d, id, call, clock, n, storage.Db(), room, me, InsertSignal(now));
    storage.CreateMessageTyped(Message(call.room, me, None, call.op.kind, false, now, id));
    AloneRings(d, id, call, clock, n + 1, storage.Db());
    k := n + 2;
  }

  // ---- closing ----

  lemma AloneCloses(d: Db, id: RequestId, call: Call, clock: Clock, n: nat, e: Db, room: Room, me: Handle,
                    step: CloseStep)
    requires Alone(d, id, call, clock, n) == (e, Goto(Closing(room, me, step))) && call.op.Close?
    ensures Alone(d, id, call, clock, n + 1) == CloseNext(e, id, call, room, me, step)
  {
    AloneStep(d, id, call, clock, n, e, Closing(room, me, step));
    hide Alone, CloseNext;
  }

  ghost predicate HasEnded(d: Db, room: RoomId) {
    room in d.rooms && d.rooms[room].state.Terminal()
  }

  lemma FoundCloses(d: Db, call: Call, room: Room, me: Handle, t: Tick)
    requires me in d.participants && call.op.Close?
    ensures Found(d, call, room, me, t) ==
            if call.op.force then StartClosing(room, me, t.now, Forced) else Goto(Closing(room, me, TouchCloser(t.now)))
  {
    hide StartClosing;
  }

  /** Refused in a room that has ended, and to a stranger; then nothing is written. Otherwise it comes to what the vote,
      or the force, is worth. */
  method CloseRoom(storage: Store.Storage, id: RequestId, call: Call, clock: Clock)
    returns (reply: Result<CloseReply, ApiError>, k: nat, ghost me: Handle, ghost at: Time)
    requires RowsUnique(storage.Db()) && call.op.Close?
    modifies storage
    ensures Ends(old(storage.Db()), id, call, clock, k, storage.Db(), reply.Ok?)
    ensures reply.Err? <==> CloseRefused(old(storage.Db()), call.room, call.instance)
    ensures reply.Err? ==> storage.Db() == old(storage.Db())
    ensures reply.Ok? ==>
      && Stands(old(storage.Db()), call.room, call.instance, me) && Read(clock, k, at)
      && CloseCame(old(storage.Db()), storage.Db(), call.room, me, call.op.force, at, id, reply.value)
  {
    ghost var d := storage.Db();
    hide Alone, Ends, Found, StartClosing, RowsUnique, HasEnded, Shut, Agreed, Lacking, Read, WithCloseVote, ClosersIn,
        LiveIn, Stands, Unserved;
    me, at := "", 0;
    var entry;
    entry, k := Admit(storage, id, call, clock);
    if entry.Err? {
      return Err(entry.error), k, me, at;
    }
    var (room, closer) := entry.value;
    FoundCloses(d, call, room, closer, clock(k - 1));
    var now := clock(k - 1).now;
    ghost var entered := k;
    me, at := closer, now;
    if call.op.force {
      var ok;
      ok, k := CloseNow(storage, d, id, call, clock, room, closer, now, Forced, k);
      ReadOn(clock, entered, k, now);
      return if ok then Ok(Ended) else Err(Refused), k, me, at;
    }
    reply, k := VoteToClose(storage, d, id, call, clock, room, closer, now, k);
    ReadOn(clock, entered, k, now);
  }

  /** Vote first, count afterwards, and close if that is enough. */
  method VoteToClose(storage: Store.Storage, ghost d: Db, id: RequestId, call: Call, clock: Clock, room: Room,
                     me: Handle, now: Time, n: nat)
    returns (reply: Result<CloseReply, ApiError>, k: nat)
    requires call.op.Close? && Alone(d, id, call, clock, n) == (storage.Db(), Goto(Closing(room, me, TouchCloser(now))))
    requires call.room in storage.rooms && room == storage.rooms[call.room] && room.state !in {Closed, Archived}
    requires HasHandle(storage.Db(), call.room, me)
    modifies storage
    ensures Ends(d, id, call, clock, k, storage.Db(), reply.Ok?) && k >= n
    ensures reply.Ok? && CloseCame(old(storage.Db()), storage.Db(), call.room, me, false, now, id, reply.value)
  {
    hide Alone, Ends, RosterOf, CloseVoters, Live, StartClosing, UpdateRoomState, TouchLastPoll, CastCloseVote,
        HasEnded, Shut, Agreed, Lacking, ClosersIn, LiveIn;
    ghost var before := storage.Db();
    VoteIsCast(before, me, now, id);
    AloneCloses(d, id, call, clock, n, storage.Db(), room, me, TouchCloser(now));
    storage.TouchLastPoll(me, now);
    AloneCloses(d, id, call, clock, n + 1, storage.Db(), room, me, CastVote(now));
    storage.SetCloseVote(me, Some(now), id);
    AloneCloses(d, id, call, clock, n + 2, storage.Db(), room, me, CountVotes(now));
    var roster := storage.ListParticipants(call.room);
    var live, votes := CountCloseVotes(roster, now);
    var needed := room.quorum.Needed(live);
    ghost var rows := storage.participants;
    CloseCounts(storage.Db(), call.room, me, now);
    QuorumIsAgreement(room.quorum, ClosersIn(rows, call.room, now), LiveIn(rows, call.room, now));
    k := n + 3;
    if votes >= needed {
      var ok;
      ok, k := CloseNow(storage, d, id, call, clock, room, me, now, Consensus(Sighting(roster, now)), k);
      return if ok then Ok(Ended) else Err(Refused), k;
    }
    AloneRings(d, id, call, clock, k, storage.Db());
    reply, k := Ok(Pending(votes, needed)), k + 1;
  }

  method CountCloseVotes(roster: Roster, now: Time) returns (live: nat, votes: nat)
    ensures live == |Live(roster, now)| && votes == |CloseVoters(roster, now)|
  {
    var present := set h | h in roster && now - roster[h].lastPollAt <= GHOST_AFTER;
    var voters := set h | h in roster && now - roster[h].lastPollAt <= GHOST_AFTER && roster[h].wantsClose.Some?;
    assert present == Live(roster, now) && voters == CloseVoters(roster, now);
    live, votes := |present|, |voters|;
  }

  /** The move itself, shared by both ways of closing: a swap that is lost is no failure if the room has ended
      anyway. */
  method CloseNow(storage: Store.Storage, ghost d: Db, id: RequestId, call: Call, clock: Clock, room: Room, me: Handle,
                  now: Time, cause: Cause, n: nat)
    returns (ok: bool, k: nat)
    requires call.op.Close? && Alone(d, id, call, clock, n) == (storage.Db(), StartClosing(room, me, now, cause))
    modifies storage
    ensures Ends(d, id, call, clock, k, storage.Db(), ok) && k >= n
    ensures ok ==> HasEnded(storage.Db(), call.room)
    ensures call.room in old(storage.rooms) && room == old(storage.rooms[call.room])
        && room.state !in {Closed, Archived}
      ==> ok && Shut(old(storage.Db()), storage.Db(), call.room, now, id)
  {
    hide Alone, Ends, Transition, UpdateRoomState, ClearCloseVotes, HasEnded, Shut;
    SwapEnds(storage.Db(), call.room, room.state, now, cause, id);
    if call.room in storage.rooms && room == storage.rooms[call.room] && room.state !in {Closed, Archived} {
      SwapShuts(storage.Db(), call.room, now, cause, id);
    }
    k := n;
    var move := Transition(room.state, OnClose);
    if move.Err? {
      AloneFails(d, id, call, clock, k);
      return false, k;
    }
    AloneCloses(d, id, call, clock, k, storage.Db(), room, me, SwapClosed(move.value, now, cause));
    var changed := storage.UpdateRoomState(call.room, room.state, move.value, now, cause, id);
    k := k + 1;
    if !changed {
      AloneCloses(d, id, call, clock, k, storage.Db(), room, me, Recheck(cause));
      var current := storage.GetRoom(call.room);
      k := k + 1;
      if current.None? || !current.value.state.Terminal() {
        AloneFails(d, id, call, clock, k);
        return false, k;
      }
      EndedAnyway(storage.Db(), call.room);
    }
    ClearingLeavesEnded(storage.Db(), call.room);
    AloneCloses(d, id, call, clock, k, storage.Db(), room, me, CloseStep.ClearVotes);
    storage.ClearCloseVotes(call.room);
    AloneRings(d, id, call, clock, k + 1, storage.Db());
    ok, k := true, k + 2;
  }

  lemma EndedAnyway(d: Db, room: RoomId)
    ensures room in d.rooms && d.rooms[room].state.Terminal() ==> HasEnded(d, room)
  {
  }

  lemma ClearingLeavesEnded(d: Db, room: RoomId)
    ensures HasEnded(d, room) ==> HasEnded(ClearCloseVotes(d, room), room)
  {
  }

  lemma SwapEnds(d: Db, room: RoomId, state: RoomState, now: Time, cause: Cause, id: RequestId)
    ensures var move := Transition(state, OnClose);
      move.Ok? ==>
        var (d', changed) := UpdateRoomState(d, room, state, move.value, now, cause, id);
        if changed then HasEnded(d', room) else d' == d
  {
  }

  // ---- extending, pausing, waking, pruning ----

  lemma AloneExtends(d: Db, id: RequestId, call: Call, clock: Clock, n: nat, e: Db, room: Room, me: Handle,
                     step: ExtendStep)
    requires Alone(d, id, call, clock, n) == (e, Goto(Extending(room, me, step))) && call.op.Extend?
    ensures Alone(d, id, call, clock, n + 1) == ExtendNext(e, id, call, room, me, step, clock(n))
  {
    AloneStep(d, id, call, clock, n, e, Extending(room, me, step));
    hide Alone, ExtendNext;
  }

  lemma FoundOthers(d: Db, call: Call, room: Room, me: Handle, t: Tick)
    requires me in d.participants
    ensures call.op.Extend? ==> Found(d, call, room, me, t) == Goto(Extending(room, me, VoteAndCount))
    ensures call.op.Pause? ==> Found(d, call, room, me, t) == StartMoving(room, OnPause)
    ensures call.op.Wake? ==> Found(d, call, room, me, t) == StartMoving(room, OnWake)
  {
    hide StartMoving, StartClosing, Transition;
  }

  /** Refused in a room that takes no traffic, and to a stranger; then nothing is written. */
  method ExtendRoom(storage: Store.Storage, id: RequestId, call: Call, clock: Clock)
    returns (reply: Result<ExtendOutcome, ApiError>, k: nat, ghost me: Handle, ghost at: Time)
    requires RowsUnique(storage.Db()) && call.op.Extend?
    modifies storage
    ensures Ends(old(storage.Db()), id, call, clock, k, storage.Db(), reply.Ok?)
    ensures reply.Err? <==> ExtendRefused(old(storage.Db()), call.room, call.instance)
    ensures reply.Err? ==> storage.Db() == old(storage.Db())
    ensures reply.Ok? ==>
      && Stands(old(storage.Db()), call.room, call.instance, me) && Read(clock, k, at)
      && ExtendCame(old(storage.Db()), storage.Db(), call.room, me, at, id, reply.value)
  {
    ghost var d := storage.Db();
    hide Alone, Ends, Found, RowsUnique, ExtendCame, Read, Stands, Unserved;
    me, at := "", 0;
    var entry;
    entry, k := Admit(storage, id, call, clock);
    if entry.Err? {
      return Err(entry.error), k, me, at;
    }
    var (room, voter) := entry.value;
    me := voter;
    FoundOthers(d, call, room, voter, clock(k - 1));
    var outcome;
    outcome, k, at := VoteToExtend(storage, d, id, call, clock, room, voter, k);
    reply := Ok(outcome);
  }

  method VoteToExtend(storage: Store.Storage, ghost d: Db, id: RequestId, call: Call, clock: Clock, room: Room,
                      me: Handle, n: nat)
    returns (outcome: ExtendOutcome, k: nat, ghost at: Time)
    requires call.op.Extend? && call.room in storage.rooms && room == storage.rooms[call.room]
    requires HasHandle(storage.Db(), call.room, me)
    requires Alone(d, id, call, clock, n) == (storage.Db(), Goto(Extending(room, me, VoteAndCount)))
    modifies storage
    ensures Ends(d, id, call, clock, k, storage.Db(), true) && Read(clock, k, at)
    ensures ExtendCame(old(storage.Db()), storage.Db(), call.room, me, at, id, outcome)
  {
    hide Alone, Ends, Tables.TryExtend, ExtendCame;
    k := n;
    var now := clock(k).now;
    at := now;
    TransactionCame(storage.Db(), call.room, me, now, id);
    AloneExtends(d, id, call, clock, k, storage.Db(), room, me, VoteAndCount);
    outcome := storage.TryExtend(call.room, me, now, now - GHOST_AFTER, room.quorum, id);
    k := k + 1;
    if outcome.Extended? {
      AloneExtends(d, id, call, clock, k, storage.Db(), room, me, Announce(now));
      storage.CreateMessageTyped(Message(call.room, me, None, ExtendNotice, false, now, id));
      k := k + 1;
    }
    AloneRings(d, id, call, clock, k, storage.Db());
    k := k + 1;
  }

  lemma AloneMoves(d: Db, id: RequestId, call: Call, clock: Clock, n: nat, e: Db, room: Room, after: RoomState)
    requires Alone(d, id, call, clock, n) == (e, Goto(Moving(room, after))) && (call.op.Pause? || call.op.Wake?)
    ensures var (e', changed) := UpdateRoomState(e, call.room, room.state, after, clock(n).now, Routine, id);
      Alone(d, id, call, clock, n + 1) == (e', if changed then Goto(Notifying) else Finish)
  {
    AloneStep(d, id, call, clock, n, e, Moving(room, after));
    hide Alone, UpdateRoomState;
  }

  /** An explicit pause or wake: refused where it makes no sense, and to a stranger; then nothing is written. */
  method ApplyTransition(storage: Store.Storage, id: RequestId, call: Call, clock: Clock)
    returns (reply: Result<RoomState, ApiError>, k: nat, ghost at: Time)
    requires RowsUnique(storage.Db()) && (call.op.Pause? || call.op.Wake?)
    modifies storage
    ensures Ends(old(storage.Db()), id, call, clock, k, storage.Db(), reply.Ok?)
    ensures reply.Err? <==> if call.op.Pause? then PauseRefused(old(storage.Db()), call.room, call.instance)
                            else WakeRefused(old(storage.Db()), call.room, call.instance)
    ensures reply.Err? ==> storage.Db() == old(storage.Db())
    ensures reply.Ok? ==>
      && reply.value == (if call.op.Pause? then Paused else Active) && Read(clock, k, at)
      && Moved(old(storage.Db()), storage.Db(), call.room, reply.value, at, id)
  {
    ghost var d := storage.Db();
    hide Alone, Ends, UpdateRoomState, Found, RowsUnique, Read, Stands, Unserved, Moved;
    at := 0;
    var entry;
    entry, k := Admit(storage, id, call, clock);
    if entry.Err? {
      return Err(entry.error), k, at;
    }
    var (room, me) := entry.value;
    FoundOthers(d, call, room, me, clock(k - 1));
    var move := Transition(room.state, if call.op.Pause? then OnPause else OnWake);
    if move.Err? {
      AloneFails(d, id, call, clock, k);
      return Err(Refused), k, at;
    }
    var moved;
    moved, k, at := MoveRoom(storage, d, id, call, clock, room, move.value, k);
    reply := if moved then Ok(move.value) else Err(Refused);
  }

  method MoveRoom(storage: Store.Storage, ghost d: Db, id: RequestId, call: Call, clock: Clock, room: Room,
                  after: RoomState, n: nat)
    returns (moved: bool, k: nat, ghost at: Time)
    requires (call.op.Pause? || call.op.Wake?) && after != Archived
    requires Alone(d, id, call, clock, n) == (storage.Db(), Goto(Moving(room, after)))
    modifies storage
    ensures Ends(d, id, call, clock, k, storage.Db(), moved)
    ensures moved <==> call.room in old(storage.rooms) && old(storage.rooms[call.room].state) == room.state
    ensures !moved ==> storage.Db() == old(storage.Db())
    ensures moved ==> Read(clock, k, at) && Moved(old(storage.Db()), storage.Db(), call.room, after, at, id)
  {
    hide Alone, Ends;
    AloneMoves(d, id, call, clock, n, storage.Db(), room, after);
    at := clock(n).now;
    moved := storage.UpdateRoomState(call.room, room.state, after, clock(n).now, Routine, id);
    k := n + 1;
    if moved {
      AloneRings(d, id, call, clock, k, storage.Db());
      k := k + 1;
    } else {
      AloneFails(d, id, call, clock, k);
    }
  }

  /** How many rows went. */
  method PruneRoom(storage: Store.Storage, id: RequestId, call: Call, clock: Clock)
    returns (reply: Result<nat, ApiError>, k: nat)
    requires call.op.Prune?
    modifies storage
    ensures Alone(old(storage.Db()), id, call, clock, k) == (storage.Db(), Finish)
    ensures reply.Err? <==> call.room !in old(storage.rooms)
    ensures reply.Err? ==> storage.Db() == old(storage.Db())
    ensures reply.Ok? ==>
      && reply.value == |old(storage.participants)| - |storage.participants| && k > 0
      && Pruned(old(storage.Db()), storage.Db(), call.room, clock(k - 1).now)
  {
    ghost var d := storage.Db();
    AloneStep(d, id, call, clock, 0, d, LoadRoom);
    var room := storage.GetRoom(call.room);
    if room.None? {
      return Err(NotFound), 1;
    }
    AloneStep(d, id, call, clock, 1, d, Pruning);
    var deleted := storage.PruneStaleParticipants(call.room, clock(1).now - GHOST_AFTER);
    reply, k := Ok(deleted), 2;
  }

  // ---- joining ----

  lemma AloneJoins(d: Db, id: RequestId, call: Call, clock: Clock, n: nat, e: Db, step: JoinStep)
    requires Alone(d, id, call, clock, n) == (e, Goto(Joining(step))) && call.op.Join?
    ensures Alone(d, id, call, clock, n + 1) == JoinNext(e, id, call, step, clock(n))
  {
    AloneStep(d, id, call, clock, n, e, Joining(step));
    hide Alone, JoinNext;
  }

  /** What the listing of the room says, in some order. */
  method ListRows(storage: Store.Storage, room: RoomId) returns (rows: seq<Identity.Listed>)
    ensures forall r :: r in rows <==>
      HasHandle(storage.Db(), room, r.handle) && storage.participants[r.handle].instance == r.instance
  {
    var roster := storage.ListParticipants(room);
    rows := [];
    var rest := roster.Keys;
    while rest != {}
      invariant rest <= roster.Keys
      invariant forall r ::
          r in rows <==> r.handle in roster && r.handle !in rest && roster[r.handle].instance == r.instance
      decreases |rest|
    {
      var h :| h in rest;
      rows := rows + [Identity.Listed(h, roster[h].instance)];
      rest := rest - {h};
    }
  }

  lemma {:induction false} FirstIsListed(rows: seq<Identity.Listed>, instance: string)
    ensures match Identity.FirstWith(rows, instance)
      case Some(h) => Identity.Listed(h, instance) in rows
      case None => forall r :: r in rows ==> r.instance != instance
  {
    if rows != [] { FirstIsListed(rows[1..], instance); }
  }

  /** A handle for the caller: its row's, or a new one. */
  method ChooseHandle(storage: Store.Storage, call: Call, candidates: seq<string>)
    returns (outcome: Identity.HandleOutcome)
    requires RowsUnique(storage.Db()) && call.op.Join?
    ensures var d := storage.Db();
      outcome == Identity.DeriveHandle(call.op.prefix, ByInstance(d, call.room, call.instance),
                                       RosterOf(d, call.room).Keys, candidates)
  {
    var rows := ListRows(storage, call.room);
    outcome := Identity.Derive(call.op.prefix, rows, call.instance, candidates);
    ghost var d := storage.Db();
    FirstIsListed(rows, call.instance);
    assert Identity.FirstWith(rows, call.instance) == ByInstance(d, call.room, call.instance) by {
      assert forall h :: HasInstance(d, call.room, call.instance, h) <==> Identity.Listed(h, call.instance) in rows;
    }
    assert (set p <- rows :: p.handle) == RosterOf(d, call.room).Keys by {
      forall h | h in RosterOf(d, call.room).Keys ensures h in set p <- rows :: p.handle {
        assert Identity.Listed(h, d.participants[h].instance) in rows;
      }
    }
  }

  /** The answer of a join: what the participant has consumed already. */
  method ShowRecent(storage: Store.Storage, ghost d: Db, id: RequestId, call: Call, clock: Clock, step: JoinStep,
                    n: nat)
    returns (answer: JoinAnswer)
    requires call.op.Join? && step.ReadRecent? && Alone(d, id, call, clock, n) == (storage.Db(), Goto(Joining(step)))
    ensures Alone(d, id, call, clock, n + 1) == (storage.Db(), Joined(answer))
    ensures answer.handle == step.handle && answer.resumed == step.resumed
    ensures Shows(storage.messages, call.room, step.upTo, answer.recent)
  {
    hide Alone;
    RecentIsTheTail(storage.messages, call.room, step.upTo, RECENT_MESSAGE_LIMIT);
    AloneJoins(d, id, call, clock, n, storage.Db(), step);
    var recent := storage.RecentMessagesUpTo(call.room, step.upTo, RECENT_MESSAGE_LIMIT);
    answer := JoinAnswer(id, call.room, call.instance, step.handle, step.resumed, recent, step.row);
  }

  /** The quick way in: the caller has a row by its instance, or shows the handle it was given. `k` steps on, the answer
      is next, or no row was found and the listing is. */
  method Reattach(storage: Store.Storage, ghost d: Db, id: RequestId, call: Call, clock: Clock)
    returns (room: bool, found: bool, step: JoinStep, k: nat)
    requires d == storage.Db() && RowsUnique(d) && call.op.Join?
    ensures !room ==> Alone(d, id, call, clock, k) == (d, Finish)
    ensures room ==> Alone(d, id, call, clock, k) == (d, Goto(Joining(step)))
    ensures room <==> call.room in d.rooms
    ensures room ==>
      if found then
        && step.ReadRecent? && step.resumed && !Stranger(d, call.room, call.instance)
        && Stands(d, call.room, call.instance, step.handle) && step.upTo == d.participants[step.handle].cursor
      else
        && step.ListRows? && step.attempt == 1 && Stranger(d, call.room, call.instance)
        && IsHead(d.messages, call.room, step.start)
  {
    hide Alone, ByInstance, Tables.CurrentSeq, Stands, Stranger;
    WhoStands(d, call.room, call.instance);
    HeadIsLast(d.messages, call.room);
    step := ReadHead;
    assert Alone(d, id, call, clock, 0) == (d, Goto(LoadRoom)) by { AloneStarts(d, id, call, clock); }
    AloneStep(d, id, call, clock, 0, d, LoadRoom);
    var there := storage.GetRoom(call.room);
    if there.None? {
      return false, false, step, 1;
    }
    AloneJoins(d, id, call, clock, 1, d, ReadHead);
    var start := storage.CurrentSeq(call.room);
    AloneJoins(d, id, call, clock, 2, d, FindRow(start));
    var me, byHandle := ResolveParticipant(storage, call.room, call.instance);
    if byHandle {
      AloneJoins(d, id, call, clock, 3, d, FindRowByHandle(start));
    }
    k := if byHandle then 4 else 3;
    room, found := true, me.Some?;
    if found {
      var p := storage.participants[me.value];
      step := ReadRecent(me.value, true, p.cursor, Some(p.row));
    } else {
      step := JoinStep.ListRows(start, 1);
    }
  }

  lemma AloneStarts(d: Db, id: RequestId, call: Call, clock: Clock)
    ensures Alone(d, id, call, clock, 0) == (d, Goto(LoadRoom))
  {
  }

  lemma InsertKeepsUnique(d: Db, h: Handle, p: Participant)
    requires RowsUnique(d)
    ensures RowsUnique(InsertParticipant(d, h, p).0)
  {
    assert forall g :: g in d.participants ==> HasInstance(d, d.participants[g].room, d.participants[g].instance, g);
  }

  /** The handle minted from the draws of one of the first k steps, for a room with these handles. */
  ghost predicate Minted(call: Call, clock: Clock, k: nat, taken: set<Handle>, h: Handle)
    requires call.op.Join?
  {
    exists i: nat :: i < k && h == Identity.Mint(call.op.prefix, taken, clock(i).candidates)
  }

  lemma StillStranger(d: Db, room: RoomId, instance: string)
    requires Stranger(d, room, instance)
    ensures ByInstance(d, room, instance).None? && forall g :: !HasInstance(d, room, instance, g)
  {
  }

  /** The attempt of a stranger: the row is added, or the minted handle was taken. */
  ghost predicate Tried(before: Db, after: Db, id: RequestId, call: Call, clock: Clock, k: nat, start: nat,
                        step: Option<JoinStep>, h: Handle, at: Time)
    requires call.op.Join?
  {
    && Minted(call, clock, k, RosterOf(before, call.room).Keys, h)
    && if step.Some? && step.value.ReadRecent? then
         && step.value.handle == h && !step.value.resumed && step.value.upTo == start && Read(clock, k, at)
         && RowAdded(before, after, h, call.room, call.instance, at, start, id)
       else h in before.participants && after == before
  }

  /** One attempt at a row of its own: it ends with the answer next, with another attempt next, or with giving up. */
  method TryRow(storage: Store.Storage, ghost d: Db, id: RequestId, call: Call, clock: Clock, start: nat, attempt: nat,
                n: nat)
    returns (step: Option<JoinStep>, k: nat, ghost h: Handle, ghost at: Time)
    requires RowsUnique(storage.Db()) && call.op.Join?
    requires Alone(d, id, call, clock, n) == (storage.Db(), Goto(Joining(JoinStep.ListRows(start, attempt))))
    modifies storage
    ensures RowsUnique(storage.Db()) && k > n
    ensures match step
      case None => Alone(d, id, call, clock, k) == (storage.Db(), Finish) && attempt >= MAX_ATTEMPTS
      case Some(st) =>
        && (st.ReadRecent? || (st == JoinStep.ListRows(start, attempt + 1) && attempt < MAX_ATTEMPTS))
        && Alone(d, id, call, clock, k) == (storage.Db(), Goto(Joining(st)))
    ensures Stranger(old(storage.Db()), call.room, call.instance)
      ==> Tried(old(storage.Db()), storage.Db(), id, call, clock, k, start, step, h, at)
  {
    hide Alone, Identity.Mint, InsertParticipant, RowsUnique, Stranger, RowAdded, ByInstance;
    k, h, at := n, "", 0;
    ghost var before := storage.Db();
    if Stranger(before, call.room, call.instance) { StillStranger(before, call.room, call.instance); }
    AloneJoins(d, id, call, clock, k, storage.Db(), JoinStep.ListRows(start, attempt));
    var outcome := ChooseHandle(storage, call, clock(k).candidates);
    k := k + 1;
    match outcome
    case Reused(handle) =>
      AloneJoins(d, id, call, clock, k, storage.Db(), ReadJoinedCursor(start, handle));
      var g := storage.GetParticipantByInstance(call.room, call.instance);
      var upTo, row := start, None;
      if g.Some? {
        var p := storage.participants[g.value];
        upTo, row := p.cursor, if g.value == handle then Some(p.row) else None;
      }
      return Some(ReadRecent(handle, true, upTo, row)), k + 1, h, at;
    case Created(handle) =>
      AloneJoins(d, id, call, clock, k, storage.Db(), InsertRow(start, attempt, handle));
      h, at := handle, clock(k).now;
      var row, p := storage.nextRow,
          Participant(call.room, call.instance, clock(k).now, start, None, None, 0, id, start, []);
      InsertKeepsUnique(before, handle, p);
      if Stranger(before, call.room, call.instance) {
        RowIsAdded(before, handle, call.room, call.instance, at, start, id);
      }
      var created := storage.CreateParticipant(handle, p);
      k := k + 1;
      if created {
        return Some(ReadRecent(handle, false, start, Some(row))), k, h, at;
      }
      if attempt >= MAX_ATTEMPTS {
        return None, k, h, at;
      }
      AloneJoins(d, id, call, clock, k, storage.Db(), Refetch(start, attempt));
      var g := storage.GetParticipantByInstance(call.room, call.instance);
      k := k + 1;
      if g.Some? {
        var own := storage.participants[g.value];
        return Some(ReadRecent(g.value, true, own.cursor, Some(own.row))), k, h, at;
      }
      step := Some(JoinStep.ListRows(start, attempt + 1));
  }

  /** All the handles minted were taken, in some room or other. */
  ghost predicate AllTaken(d: Db, call: Call, clock: Clock, k: nat, minted: seq<Handle>)
    requires call.op.Join?
  {
    forall h <- minted :: h in d.participants && Minted(call, clock, k, RosterOf(d, call.room).Keys, h)
  }

  /** The row that was added for a stranger, and what it is to be shown. */
  ghost predicate NewRow(before: Db, after: Db, id: RequestId, call: Call, clock: Clock, k: nat, step: JoinStep,
                         at: Time)
    requires call.op.Join? && step.ReadRecent?
  {
    && !step.resumed && IsHead(before.messages, call.room, step.upTo) && Read(clock, k, at)
    && RowAdded(before, after, step.handle, call.room, call.instance, at, step.upTo, id)
    && Minted(call, clock, k, RosterOf(before, call.room).Keys, step.handle)
  }

  lemma OneMoreTaken(d: Db, call: Call, clock: Clock, k: nat, longer: nat, minted: seq<Handle>, h: Handle)
    requires call.op.Join? && AllTaken(d, call, clock, k, minted) && k <= longer
    ensures AllTaken(d, call, clock, longer, minted)
    ensures h in d.participants && Minted(call, clock, longer, RosterOf(d, call.room).Keys, h)
      ==> AllTaken(d, call, clock, longer, minted + [h])
  {
    forall g | g in minted ensures Minted(call, clock, longer, RosterOf(d, call.room).Keys, g) {
      assert Minted(call, clock, k, RosterOf(d, call.room).Keys, g);
    }
  }

  lemma NothingTaken(d: Db, call: Call, clock: Clock)
    requires call.op.Join?
    ensures forall n :: AllTaken(d, call, clock, n, [])
  {
  }

  lemma IsNewRow(before: Db, after: Db, id: RequestId, call: Call, clock: Clock, k: nat, step: JoinStep, at: Time)
    requires call.op.Join? && step.ReadRecent? && !step.resumed
    requires Tried(before, after, id, call, clock, k, step.upTo, Some(step), step.handle, at)
    requires IsHead(before.messages, call.room, step.upTo)
    ensures NewRow(before, after, id, call, clock, k, step, at)
  {
    hide Minted, RowAdded, IsHead, Read;
  }

  lemma NewRowTold(before: Db, after: Db, id: RequestId, call: Call, clock: Clock, k: nat, step: JoinStep, at: Time)
    requires call.op.Join? && step.ReadRecent? && NewRow(before, after, id, call, clock, k, step, at)
    ensures Read(clock, k, at) && Minted(call, clock, k, RosterOf(before, call.room).Keys, step.handle)
  {
    hide Minted, RowAdded, IsHead, Read;
  }

  lemma NewRowOn(before: Db, after: Db, id: RequestId, call: Call, clock: Clock, k: nat, step: JoinStep, at: Time)
    requires call.op.Join? && step.ReadRecent? && NewRow(before, after, id, call, clock, k, step, at)
    ensures NewRow(before, after, id, call, clock, k + 1, step, at)
  {
    hide RowAdded, IsHead, Identity.Mint;
    ReadOn(clock, k, k + 1, at);
  }

  lemma NewRowCame(before: Db, after: Db, id: RequestId, call: Call, clock: Clock, k: nat, step: JoinStep, at: Time,
                   recent: seq<nat>)
    requires call.op.Join? && step.ReadRecent? && NewRow(before, after, id, call, clock, k, step, at)
    requires Stranger(before, call.room, call.instance) && Shows(after.messages, call.room, step.upTo, recent)
    ensures JoinCame(before, after, call.room, call.instance, at, id, step.handle, step.resumed, recent)
  {
    hide Minted, Shows, IsHead, Stranger;
  }

  /** Up to 64 attempts of a stranger at a row: it is added, or all the handles minted were taken. */
  method TakeRow(storage: Store.Storage, ghost d: Db, id: RequestId, call: Call, clock: Clock, start: nat, n: nat)
    returns (row: Option<JoinStep>, k: nat, ghost minted: seq<Handle>, ghost at: Time)
    requires d == storage.Db() && RowsUnique(d) && call.op.Join? && Stranger(d, call.room, call.instance)
    requires IsHead(d.messages, call.room, start)
    requires Alone(d, id, call, clock, n) == (d, Goto(Joining(JoinStep.ListRows(start, 1))))
    modifies storage
    ensures AllTaken(d, call, clock, k, minted)
    ensures match row
      case None => Alone(d, id, call, clock, k) == (d, Finish) && storage.Db() == d && |minted| == 64
      case Some(step) =>
        && step.ReadRecent? && Alone(d, id, call, clock, k) == (storage.Db(), Goto(Joining(step))) && |minted| < 64
        && NewRow(d, storage.Db(), id, call, clock, k, step, at)
  {
    hide Alone, RowsUnique, Stranger, Minted, Read, RowAdded, IsHead, AllTaken, NewRow;
    NothingTaken(d, call, clock);
    minted, at, k := [], 0, n;
    var attempt, step := 1, JoinStep.ListRows(start, 1);
    while step.ListRows?
      invariant attempt <= MAX_ATTEMPTS && RowsUnique(storage.Db())
      invariant AllTaken(d, call, clock, k, minted) && |minted| == attempt - 1
      invariant Alone(d, id, call, clock, k) == (storage.Db(), Goto(Joining(step)))
      invariant if step.ListRows? then step == JoinStep.ListRows(start, attempt) && storage.Db() == d
                else step.ReadRecent? && NewRow(d, storage.Db(), id, call, clock, k, step, at)
      decreases step.ListRows?, MAX_ATTEMPTS - attempt
    {
      var next;
      ghost var h, entered := "", k;
      next, k, h, at := TryRow(storage, d, id, call, clock, step.start, attempt, k);
      OneMoreTaken(d, call, clock, entered, k, minted, h);
      if next.None? {
        minted := minted + [h];
        return None, k, minted, at;
      }
      step := next.value;
      if step.ListRows? {
        attempt, minted := attempt + 1, minted + [h];
      } else {
        IsNewRow(d, storage.Db(), id, call, clock, k, step, at);
      }
    }
    row := Some(step);
  }

  /** Refused where there is no room, and to a stranger for whom 64 handles in a row were minted in vain; then nothing
      is written. */
  method JoinRoom(storage: Store.Storage, id: RequestId, call: Call, clock: Clock)
    returns (reply: Result<JoinAnswer, ApiError>, k: nat, ghost minted: seq<Handle>, ghost at: Time)
    requires RowsUnique(storage.Db()) && call.op.Join?
    modifies storage
    ensures match reply
      case Ok(answer) => Alone(old(storage.Db()), id, call, clock, k) == (storage.Db(), Joined(answer))
      case Err(_) => Alone(old(storage.Db()), id, call, clock, k) == (storage.Db(), Finish)
    ensures AllTaken(old(storage.Db()), call, clock, k, minted)
    ensures |minted| > 0 ==> Stranger(old(storage.Db()), call.room, call.instance)
    ensures reply.Err? <==> call.room !in old(storage.rooms) || |minted| == 64
    ensures reply.Err? ==> storage.Db() == old(storage.Db())
    ensures reply.Ok? ==>
      JoinCame(old(storage.Db()), storage.Db(), call.room, call.instance, at, id, reply.value.handle,
               reply.value.resumed, reply.value.recent)
    ensures reply.Ok? && !reply.value.resumed ==>
      Read(clock, k, at) && Minted(call, clock, k, RosterOf(old(storage.Db()), call.room).Keys, reply.value.handle)
  {
    ghost var d := storage.Db();
    hide Alone, RowsUnique, Stranger, Minted, Read, RowAdded, Shows, IsHead, Stands, AllTaken, NewRow;
    NothingTaken(d, call, clock);
    minted, at := [], 0;
    var room, found, step;
    room, found, step, k := Reattach(storage, d, id, call, clock);
    if !room {
      return Err(NotFound), k, minted, at;
    }
    if !found {
      var row;
      row, k, minted, at := TakeRow(storage, d, id, call, clock, step.start, k);
      if row.None? {
        return Err(Refused), k, minted, at;
      }
      step := row.value;
    }
    var answer := ShowRecent(storage, d, id, call, clock, step, k);
    OneMoreTaken(d, call, clock, k, k + 1, minted, "");
    if !found {
      NewRowOn(d, storage.Db(), id, call, clock, k, step, at);
      NewRowCame(d, storage.Db(), id, call, clock, k, step, at, answer.recent);
      NewRowTold(d, storage.Db(), id, call, clock, k + 1, step, at);
    }
    reply, k := Ok(answer), k + 1;
  }

  // ---- opening ----

  const DIGITS := "0123456789"

  function Decimal(n: nat): string {
    if n < 10 then [DIGITS[n]] else Decimal(n / 10) + [DIGITS[n % 10]]
  }

  /** The id tried first is the bare one; later tries are numbered. */
  function CandidateId(base: RoomId, attempt: nat): RoomId {
    if attempt <= 1 then base else base + "-" + Decimal(attempt)
  }

  /** Opens under the first candidate id that is free, and does there what the machine's opening does. */
  method OpenRoom(storage: Store.Storage, base: RoomId, hardCap: int, softCap: int, now: Time)
    returns (reply: Result<RoomId, ApiError>, attempt: nat)
    modifies storage
    ensures reply == Err(BadRequest) <==> hardCap < 1 || softCap < 2
    ensures reply.Ok? ==>
      && 1 <= attempt <= 64 && reply.value == CandidateId(base, attempt) && reply.value !in old(storage.rooms)
      && (forall i :: 1 <= i < attempt ==> CandidateId(base, i) in old(storage.rooms))
      && storage.Db() == InsertRoom(old(storage.Db()), reply.value, NewRoom(hardCap, softCap, now)).0
      && Opened(old(storage.Db()), storage.Db(), reply.value, hardCap, softCap, now)
    ensures reply.Err? ==> storage.Db() == old(storage.Db())
    ensures reply == Err(Refused) ==> forall i :: 1 <= i <= 64 ==> CandidateId(base, i) in old(storage.rooms)
  {
    if hardCap < 1 || softCap < 2 {
      return Err(BadRequest), 0;
    }
    attempt := 1;
    while true
      invariant 1 <= attempt <= MAX_ATTEMPTS && storage.Db() == old(storage.Db())
      invariant forall i :: 1 <= i < attempt ==> CandidateId(base, i) in storage.rooms
      decreases MAX_ATTEMPTS - attempt
    {
      var id := CandidateId(base, attempt);
      var room := Room(Active, hardCap, softCap, All, now, now, now, hardCap, [], 0);
      var created := storage.CreateRoom(id, room);
      if created {
        return Ok(id), attempt;
      }
      if attempt >= MAX_ATTEMPTS {
        return Err(Refused), attempt;
      }
      attempt := attempt + 1;
    }
  }

  /** The machine's opening does that and nothing else: refused for caps out of range or a taken id. */
  lemma MachineOpens(s: State, room: RoomId, hardCap: int, softCap: int, now: Time)
    ensures var s' := Step(s, Action.OpenRoom(room, hardCap, softCap, now));
      && s'.(db := s.db) == s
      && if hardCap < 1 || softCap < 2 || room in s.db.rooms then s'.db == s.db
         else Opened(s.db, s'.db, room, hardCap, softCap, now)
  {
  }
}
