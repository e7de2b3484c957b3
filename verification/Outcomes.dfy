/** What each request comes to when nothing interferes, said of the tables before and after and of nothing else: when it
    is refused, and what it leaves. */
module Outcomes {
  import opened Wrappers
  import opened Lifecycle
  import opened Tables

  // ---- callers ----

  /** The row a caller stands for: the one with its instance, failing that the one with this handle. */
  ghost predicate Stands(d: Db, room: RoomId, instance: string, me: Handle) {
    && me in d.participants && d.participants[me].room == room
    && (|| d.participants[me].instance == instance
        || (me == instance && forall h ::
              h in d.participants && d.participants[h].room == room ==> d.participants[h].instance != instance))
  }

  /** Nobody in the room goes by this instance or handle. */
  ghost predicate Stranger(d: Db, room: RoomId, instance: string) {
    forall h :: h in d.participants && d.participants[h].room == room ==>
      d.participants[h].instance != instance && h != instance
  }

  /** There is no such room, or the caller is a stranger to it. */
  ghost predicate Unserved(d: Db, room: RoomId, instance: string) {
    room !in d.rooms || Stranger(d, room, instance)
  }

  lemma WhoStands(d: Db, room: RoomId, instance: string)
    ensures match ByInstance(d, room, instance)
      case Some(me) => Stands(d, room, instance, me) && !Stranger(d, room, instance)
      case None =>
        if HasHandle(d, room, instance)
        then Stands(d, room, instance, instance) && !Stranger(d, room, instance)
        else Stranger(d, room, instance)
  {
    forall h | h in d.participants && d.participants[h].room == room && d.participants[h].instance == instance
      ensures HasInstance(d, room, instance, h) {}
  }

  // ---- sending ----

  /** The messages of the room that count towards its cap. */
  ghost function TalkIn(messages: seq<Message>, room: RoomId): set<nat> {
    set k: nat | k < |messages| && messages[k].room == room && messages[k].kind.Msg?
  }

  lemma {:induction false} CountIsTalk(messages: seq<Message>, room: RoomId)
    ensures CountCapped(messages, room) == |TalkIn(messages, room)|
  {
    if messages == [] {
      assert TalkIn(messages, room) == {};
    } else {
      var n := |messages| - 1;
      CountIsTalk(messages[..n], room);
      assert TalkIn(messages, room)
          == TalkIn(messages[..n], room) + if messages[n].room == room && messages[n].kind.Msg? then {n} else {};
    }
  }

  ghost predicate SendRefused(d: Db, room: RoomId, instance: string, to: Option<Handle>) {
    || Unserved(d, room, instance)
    || d.rooms[room].state in {Paused, Closed, Archived}
    || (to.Some? && !(to.value in d.participants && d.participants[to.value].room == room))
    || |TalkIn(d.messages, room)| >= d.rooms[room].hardCap
  }

  /** The message is in the log, its sender's own votes are gone, the room was used then, and was woken if it was idle
      or stale: with one row of the audit log for that. */
  ghost predicate Sent(before: Db, after: Db, m: Message) {
    && m.room in before.rooms && m.sender in before.participants
    && after.messages == before.messages + [m]
    && after.participants
       == before.participants[m.sender := before.participants[m.sender].(wantsClose := None, wantsExtend := None)]
    && after.nextRow == before.nextRow && after.casts == before.casts
    && var r := before.rooms[m.room].(lastActivityAt := m.createdAt);
       if r.state in {Idle, Stale} then
         && after.rooms
            == before.rooms[m.room := r.(state := Active, stateChangedAt := m.createdAt, changedBy := m.sentBy)]
         && after.events
            == before.events + [Event(m.room, TransitionKind, r.state, Active, m.createdAt, Routine, m.sentBy)]
       else after.rooms == before.rooms[m.room := r] && after.events == before.events
  }

  /** The statements of a landed send, one after another. */
  lemma StatementsOfSend(d: Db, m: Message)
    requires m.room in d.rooms && m.sender in d.participants
    ensures
      var read := d.rooms[m.room].state;
      var used := TouchLastActivity(ClearExtendVote(RetractCloseVote(Append(d, m), m.sender), m.sender), m.room,
                                    m.createdAt);
      && used.messages == Append(d, m).messages
      && Sent(d, if read.Idle? || read.Stale?
                 then UpdateRoomState(used, m.room, read, Active, m.createdAt, Routine, m.sentBy).0 else used, m)
  {
  }

  // ---- signals, pauses and wakes ----

  ghost predicate SignalRefused(d: Db, room: RoomId, instance: string, kind: Kind) {
    || Unserved(d, room, instance)
    || d.rooms[room].state in {Paused, Closed, Archived}
    || !(kind.WaitingUser? || kind.Fold? || kind.BlockerRealWork?)
    || (kind.BlockerRealWork? && d.rooms[room].state == Stale)
  }

  /** The room has gone from where it was to this state, and that is all. */
  ghost predicate Moved(before: Db, after: Db, room: RoomId, to: RoomState, at: Time, mover: RequestId) {
    && room in before.rooms
    && var r := before.rooms[room];
       after == before.(rooms := before.rooms[room := r.(state := to, stateChangedAt := at, changedBy := mover)],
                        events := before.events + [Event(room, TransitionKind, r.state, to, at, Routine, mover)])
  }

  /** The signal is in the log; a blocker has paused the room, and nothing else has changed. */
  ghost predicate Signalled(before: Db, after: Db, m: Message) {
    && after.messages == before.messages + [m]
    && if m.kind.BlockerRealWork?
       then Moved(before, after.(messages := before.messages), m.room, Paused, m.createdAt, m.sentBy)
       else after.(messages := before.messages) == before
  }

  ghost predicate PauseRefused(d: Db, room: RoomId, instance: string) {
    Unserved(d, room, instance) || d.rooms[room].state !in {Active, Idle}
  }

  ghost predicate WakeRefused(d: Db, room: RoomId, instance: string) {
    Unserved(d, room, instance) || d.rooms[room].state !in {Idle, Paused}
  }

  // ---- votes ----

  /** The rows of the room polled in the last quarter of an hour. */
  ghost function LiveIn(rows: map<Handle, Participant>, room: RoomId, now: Time): set<Handle> {
    set h | h in rows && rows[h].room == room && now - rows[h].lastPollAt <= 15 * MINUTE
  }

  ghost function ClosersIn(rows: map<Handle, Participant>, room: RoomId, now: Time): set<Handle> {
    set h | h in rows && rows[h].room == room && now - rows[h].lastPollAt <= 15 * MINUTE && rows[h].wantsClose.Some?
  }

  ghost function ExtendersIn(rows: map<Handle, Participant>, room: RoomId, now: Time): set<Handle> {
    set h | h in rows && rows[h].room == room && now - rows[h].lastPollAt <= 15 * MINUTE && rows[h].wantsExtend.Some?
  }

  /** Everybody live has voted, or more than half of them have. */
  ghost predicate Agreed(quorum: CloseQuorum, votes: set<Handle>, live: set<Handle>) {
    match quorum
    case All => votes == live
    case Majority => 2 * |votes| > |live|
  }

  /** Fewer than the least number that would do. */
  ghost predicate Lacking(quorum: CloseQuorum, votes: nat, needed: nat, live: nat) {
    && votes < needed
    && match quorum
       case All => needed == live
       case Majority => 2 * needed > live >= 2 * (needed - 1)
  }

  lemma QuorumIsAgreement(quorum: CloseQuorum, votes: set<Handle>, live: set<Handle>)
    requires votes <= live && live != {}
    ensures |votes| >= quorum.Needed(|live|) <==> Agreed(quorum, votes, live)
    ensures |votes| < quorum.Needed(|live|) ==> Lacking(quorum, |votes|, quorum.Needed(|live|), |live|)
  {
    assert live == votes + (live - votes);
    assert |live| == |votes| + |live - votes|;
    assert votes != live ==> live - votes != {};
  }

  // ---- closing ----

  /** What a close came to. */
  datatype CloseReply = Ended | Pending(votes: nat, needed: nat)

  ghost predicate CloseRefused(d: Db, room: RoomId, instance: string) {
    Unserved(d, room, instance) || d.rooms[room].state in {Closed, Archived}
  }

  /** The room is closed, with one row of the audit log for that, and nobody in it has a close vote any more. */
  ghost predicate Shut(before: Db, after: Db, room: RoomId, at: Time, mover: RequestId) {
    && room in before.rooms
    && after.rooms
       == before.rooms[room := before.rooms[room].(state := Closed, stateChangedAt := at, changedBy := mover)]
    && (exists cause :: after.events
          == before.events + [Event(room, TransitionKind, before.rooms[room].state, Closed, at, cause, mover)])
    && after.messages == before.messages && after.nextRow == before.nextRow && after.casts == before.casts
    && after.participants.Keys == before.participants.Keys
    && forall h :: h in before.participants ==>
         after.participants[h] == if before.participants[h].room == room
         then before.participants[h].(wantsClose := None) else before.participants[h]
  }

  /** The caller's vote is cast, and casting it shows that the caller is live. */
  ghost function WithCloseVote(d: Db, me: Handle, at: Time, voter: RequestId): Db
    requires me in d.participants
  {
    var p := d.participants[me].(lastPollAt := at, wantsClose := Some(Vote(at, voter, d.casts)));
    d.(participants := d.participants[me := p], casts := d.casts + 1)
  }

  /** Forced, a close ends the room. Otherwise the caller's vote is cast first, and the room ends if that makes enough
      of the live; if not, the answer says how many there are and how many it takes, and the vote is all there is. */
  ghost predicate CloseCame(before: Db, after: Db, room: RoomId, me: Handle, forced: bool, at: Time, mover: RequestId,
                            reply: CloseReply)
  {
    && room in before.rooms && me in before.participants
    && if forced then reply == Ended && Shut(before, after, room, at, mover)
       else
         var voted := WithCloseVote(before, me, at, mover);
         var votes, live := ClosersIn(voted.participants, room, at), LiveIn(voted.participants, room, at);
         if Agreed(before.rooms[room].quorum, votes, live)
         then reply == Ended && Shut(voted, after, room, at, mover)
         else
           && after == voted && reply.Pending? && reply.votes == |votes|
           && Lacking(before.rooms[room].quorum, reply.votes, reply.needed, |live|)
  }

  lemma SwapShuts(d: Db, room: RoomId, now: Time, cause: Cause, id: RequestId)
    requires room in d.rooms && d.rooms[room].state !in {Closed, Archived}
    ensures var state := d.rooms[room].state;
      && Transition(state, OnClose) == Ok(Closed)
      && var (swapped, changed) := UpdateRoomState(d, room, state, Closed, now, cause, id);
         changed && Shut(d, ClearCloseVotes(swapped, room), room, now, id)
  {
  }

  lemma VoteIsCast(d: Db, me: Handle, now: Time, id: RequestId)
    requires me in d.participants
    ensures CastCloseVote(TouchLastPoll(d, me, now), me, now, id) == WithCloseVote(d, me, now, id)
  {
    var touched := TouchLastPoll(d, me, now);
    assert d.participants[me := touched.participants[me]] == touched.participants;
  }

  lemma CloseCounts(d: Db, room: RoomId, me: Handle, now: Time)
    requires HasHandle(d, room, me) && d.participants[me].lastPollAt == now
    ensures var roster := RosterOf(d, room);
      CloseVoters(roster, now) == ClosersIn(d.participants, room, now)
          && Live(roster, now) == LiveIn(d.participants, room, now)
    ensures var votes, live := ClosersIn(d.participants, room, now), LiveIn(d.participants, room, now);
      votes <= live && live != {}
  {
    assert me in LiveIn(d.participants, room, now);
  }

  // ---- extending ----

  ghost predicate ExtendRefused(d: Db, room: RoomId, instance: string) {
    Unserved(d, room, instance) || d.rooms[room].state in {Paused, Closed, Archived}
  }

  ghost function WithExtendVote(d: Db, me: Handle, at: Time, voter: RequestId): Db
    requires me in d.participants
  {
    var p := d.participants[me].(lastPollAt := at, wantsExtend := Some(Vote(at, voter, d.casts)));
    d.(participants := d.participants[me := p], casts := d.casts + 1)
  }

  /** The cap is 20 higher, nobody in the room has an extend vote any more, and the room is told. */
  ghost predicate Raised(before: Db, after: Db, room: RoomId, me: Handle, at: Time, id: RequestId) {
    && room in before.rooms && room in after.rooms
    && after.rooms == before.rooms[room := before.rooms[room].(hardCap := before.rooms[room].hardCap + 20,
                                                              bumps := after.rooms[room].bumps)]
    && after.messages == before.messages + [Message(room, me, None, ExtendNotice, false, at, id)]
    && after.events == before.events && after.nextRow == before.nextRow && after.casts == before.casts
    && after.participants.Keys == before.participants.Keys
    && forall h :: h in before.participants ==>
         after.participants[h] == if before.participants[h].room == room
         then before.participants[h].(wantsExtend := None) else before.participants[h]
  }

  /** The caller's vote is cast first, and the cap is raised if that makes enough of the live. */
  ghost predicate ExtendCame(before: Db, after: Db, room: RoomId, me: Handle, at: Time, id: RequestId,
                             outcome: ExtendOutcome)
  {
    && room in before.rooms && me in before.participants
    && var voted := WithExtendVote(before, me, at, id);
       var votes, live := ExtendersIn(voted.participants, room, at), LiveIn(voted.participants, room, at);
       if Agreed(before.rooms[room].quorum, votes, live)
       then outcome == Extended(before.rooms[room].hardCap + 20) && Raised(voted, after, room, me, at, id)
       else
         && after == voted && outcome.Proposed? && outcome.votes == |votes|
         && Lacking(before.rooms[room].quorum, outcome.votes, outcome.needed, |live|)
  }

  lemma ExtendCounts(d: Db, room: RoomId, me: Handle, now: Time)
    requires HasHandle(d, room, me) && d.participants[me].lastPollAt == now
    ensures var roster, cutoff := RosterOf(d, room), now - GHOST_AFTER;
      && ExtendVotersSince(roster, cutoff) == ExtendersIn(d.participants, room, now)
      && PolledSince(roster, cutoff) == LiveIn(d.participants, room, now)
    ensures var votes, live := ExtendersIn(d.participants, room, now), LiveIn(d.participants, room, now);
      votes <= live && live != {}
  {
    assert me in LiveIn(d.participants, room, now);
  }

  lemma TransactionCame(d: Db, room: RoomId, me: Handle, now: Time, id: RequestId)
    requires room in d.rooms && HasHandle(d, room, me)
    ensures var (d', outcome) := TryExtend(d, room, me, now, now - GHOST_AFTER, d.rooms[room].quorum, id);
      ExtendCame(d, if outcome.Extended? then Append(d', Message(room, me, None, ExtendNotice, false, now, id)) else d',
                 room, me, now, id, outcome)
  {
    var voted := CastExtendVote(d, me, now, id);
    assert voted == WithExtendVote(d, me, now, id);
    ExtendCounts(voted, room, me, now);
    QuorumIsAgreement(d.rooms[room].quorum, ExtendersIn(voted.participants, room, now),
                      LiveIn(voted.participants, room, now));
    hide Agreed, Lacking, ExtendersIn, LiveIn, RosterOf, ExtendVotersSince, PolledSince, CastExtendVote, WithExtendVote;
  }

  // ---- pruning ----

  /** The rows of the room not polled for more than a quarter of an hour are gone, and that is all. */
  ghost predicate Pruned(before: Db, after: Db, room: RoomId, at: Time) {
    && after.(participants := before.participants) == before
    && (forall h :: h in after.participants
          <==> h in before.participants && !(before.participants[h].room == room
                                             && at - before.participants[h].lastPollAt > 15 * MINUTE))
    && forall h :: h in after.participants ==> after.participants[h] == before.participants[h]
  }

  // ---- opening and joining ----

  /** The room is there, active and as asked for, and that is all. */
  ghost predicate Opened(before: Db, after: Db, room: RoomId, hardCap: int, softCap: int, now: Time) {
    && room !in before.rooms && room in after.rooms
    && after == before.(rooms := before.rooms[room := after.rooms[room]])
    && var r := after.rooms[room];
       && r.state == Active && r.hardCap == hardCap && r.softCap == softCap && r.quorum == All
       && r.openedAt == now && r.lastActivityAt == now && r.stateChangedAt == now
  }

  /** The last message of the room, or 0. */
  ghost predicate IsHead(messages: seq<Message>, room: RoomId, n: nat) {
    && n <= |messages| && (n > 0 ==> messages[n - 1].room == room)
    && forall i :: n <= i < |messages| ==> messages[i].room != room
  }

  /** The messages of the room up to this seq, in order, or the last fifty of them. */
  ghost predicate Shows(messages: seq<Message>, room: RoomId, upTo: nat, recent: seq<nat>) {
    && |recent| <= 50
    && (forall i, j :: 0 <= i < j < |recent| ==> recent[i] < recent[j])
    && (forall k :: k in recent ==> 1 <= k <= upTo && k <= |messages| && messages[k - 1].room == room)
    && forall k :: 1 <= k <= upTo && k <= |messages| && messages[k - 1].room == room ==>
         k in recent || (|recent| == 50 && forall x :: x in recent ==> k < x)
  }

  /** The row is there, reading from this seq on, and that is all. */
  ghost predicate RowAdded(before: Db, after: Db, h: Handle, room: RoomId, instance: string, at: Time, head: nat,
                           id: RequestId)
  {
    && h !in before.participants && h in after.participants
    && after == before.(participants := before.participants[h := after.participants[h]], nextRow := before.nextRow + 1)
    && var p := after.participants[h];
       && p.room == room && p.instance == instance && p.lastPollAt == at && p.cursor == head
       && p.wantsClose.None? && p.wantsExtend.None? && p.creator == id
  }

  /** Whoever has a row is shown what it has read, and nothing changes. A stranger gets a row that reads from here on,
      and is shown what was said before. */
  ghost predicate JoinCame(before: Db, after: Db, room: RoomId, instance: string, at: Time, id: RequestId, h: Handle,
                           resumed: bool, recent: seq<nat>)
  {
    if Stranger(before, room, instance) then
      && !resumed && h in after.participants
      && var head := after.participants[h].cursor;
         && IsHead(before.messages, room, head) && RowAdded(before, after, h, room, instance, at, head, id)
         && Shows(before.messages, room, head, recent)
    else
      && resumed && after == before && Stands(before, room, instance, h)
      && Shows(before.messages, room, before.participants[h].cursor, recent)
  }

  lemma RowIsAdded(d: Db, h: Handle, room: RoomId, instance: string, at: Time, head: nat, id: RequestId)
    requires forall g :: !HasInstance(d, room, instance, g)
    ensures var (d', inserted) :=
        InsertParticipant(d, h, Participant(room, instance, at, head, None, None, 0, id, head, []));
      if inserted then RowAdded(d, d', h, room, instance, at, head, id) && d'.participants[h].row == d.nextRow
      else d' == d && h in d.participants
  {
  }

  // ---- waiting ----

  /** The last thing anybody else said in the room is that it is away. */
  ghost predicate SaidAway(d: Db, room: RoomId, me: Handle) {
    exists k: nat :: IsLastOfOthers(d.messages, room, me, k) && d.messages[k].kind.WaitingUser?
  }

  ghost predicate FromOther(messages: seq<Message>, room: RoomId, me: Handle, k: nat) {
    k < |messages| && messages[k].room == room && messages[k].sender != me
  }

  ghost predicate IsLastOfOthers(messages: seq<Message>, room: RoomId, me: Handle, k: nat) {
    FromOther(messages, room, me, k) && forall j: nat :: k < j ==> !FromOther(messages, room, me, j)
  }

  lemma {:induction false} LatestIsLast(messages: seq<Message>, room: RoomId, me: Handle)
    ensures match LatestFromOther(messages, room, me)
      case Some(m) => exists k: nat :: IsLastOfOthers(messages, room, me, k) && messages[k] == m
      case None => forall k: nat :: !FromOther(messages, room, me, k)
  {
    if messages != [] {
      var n := |messages| - 1;
      if FromOther(messages, room, me, n) {
        assert IsLastOfOthers(messages, room, me, n);
      } else {
        LatestIsLast(messages[..n], room, me);
        assert forall k: nat :: k < n ==> (FromOther(messages, room, me, k) <==> FromOther(messages[..n], room, me, k));
        if k: nat :| IsLastOfOthers(messages[..n], room, me, k) { assert IsLastOfOthers(messages, room, me, k); }
      }
    }
  }

  lemma AwayIsLatest(d: Db, room: RoomId, me: Handle)
    ensures var latest := LatestFromOther(d.messages, room, me);
      SaidAway(d, room, me) <==> latest.Some? && latest.value.kind.WaitingUser?
  {
    LatestIsLast(d.messages, room, me);
    forall j: nat, k: nat | IsLastOfOthers(d.messages, room, me, j) && IsLastOfOthers(d.messages, room, me, k)
      ensures j == k {}
  }

  /** Somebody else has a row of the room. */
  ghost predicate Accompanied(d: Db, room: RoomId, me: Handle) {
    exists h :: h in d.participants && d.participants[h].room == room && h != me
  }

  /** Nobody else has polled in the last quarter of an hour. */
  ghost predicate OthersDark(d: Db, room: RoomId, me: Handle, now: Time) {
    forall h :: h in d.participants && d.participants[h].room == room && h != me ==>
      now - d.participants[h].lastPollAt > 15 * MINUTE
  }

  /** Another live participant wants to close, and the caller does not. */
  ghost predicate CloseAwaits(d: Db, room: RoomId, me: Handle, now: Time) {
    && me in d.participants && d.participants[me].wantsClose.None?
    && exists h :: h in d.participants && d.participants[h].room == room && h != me
         && d.participants[h].wantsClose.Some? && now - d.participants[h].lastPollAt <= 15 * MINUTE
  }

  ghost predicate ExtendAwaits(d: Db, room: RoomId, me: Handle, now: Time) {
    && me in d.participants && d.participants[me].wantsExtend.None?
    && exists h :: h in d.participants && d.participants[h].room == room && h != me
         && d.participants[h].wantsExtend.Some? && now - d.participants[h].lastPollAt <= 15 * MINUTE
  }

  lemma WaitChecks(d: Db, room: RoomId, me: Handle, now: Time)
    requires HasHandle(d, room, me)
    ensures Accompanied(d, room, me)
      ==> (CounterpartIsStale(RosterOf(d, room), me, now) <==> OthersDark(d, room, me, now))
    ensures CloseProposed(RosterOf(d, room), me, now) <==> CloseAwaits(d, room, me, now)
    ensures ExtendProposed(RosterOf(d, room), me, now) <==> ExtendAwaits(d, room, me, now)
  {
    var roster := RosterOf(d, room);
    assert forall h :: h in roster <==> h in d.participants && d.participants[h].room == room;
  }

  /** The park is cut to nothing: the caller has no patience, or it is not told that the other side is away, and at
      these clock readings the others are dark or a proposal waits for the caller. */
  ghost predicate Cut(d: Db, room: RoomId, me: Handle, patient: bool, darkAt: Time, closeAt: Time, extendAt: Time) {
    || !patient
    || (&& !SaidAway(d, room, me)
        && (OthersDark(d, room, me, darkAt) || CloseAwaits(d, room, me, closeAt)
            || ExtendAwaits(d, room, me, extendAt)))
  }

  /** The message with this seq is one for the reader: from somebody else in the room, to all or to the reader. */
  ghost predicate IsFor(messages: seq<Message>, room: RoomId, me: Handle, k: nat) {
    && 1 <= k <= |messages| && messages[k - 1].room == room && messages[k - 1].sender != me
    && messages[k - 1].recipient in {None, Some(me)}
  }

  ghost predicate NothingFor(d: Db, room: RoomId, me: Handle) {
    me in d.participants && forall k: nat :: d.participants[me].cursor < k ==> !IsFor(d.messages, room, me, k)
  }

  ghost predicate IsNextFor(d: Db, room: RoomId, me: Handle, m: nat) {
    && me in d.participants && d.participants[me].cursor < m && IsFor(d.messages, room, me, m)
    && forall k: nat :: d.participants[me].cursor < k < m ==> !IsFor(d.messages, room, me, k)
  }

  lemma NextIsNext(d: Db, room: RoomId, me: Handle)
    requires me in d.participants
    ensures match NextUnread(d.messages, room, me, d.participants[me].cursor)
      case Some(m) => IsNextFor(d, room, me, m) && !NothingFor(d, room, me)
      case None => NothingFor(d, room, me)
  {
    forall k: nat | 1 <= k <= |d.messages|
        ensures IsFor(d.messages, room, me, k) <==> Relevant(d.messages, room, me, k) {
    }
  }

  /** A long-poll in a room that takes traffic, with nobody else there. */
  ghost predicate AloneInOpen(d: Db, room: RoomId, me: Handle) {
    room in d.rooms && d.rooms[room].state in {Active, Idle, Stale} && !Accompanied(d, room, me)
  }

  /** The caller's poll is noted, and the oldest message for it that it had not claimed is claimed, unless there is none
      or it is alone in a room that takes traffic; nothing else changes. */
  ghost predicate WaitCame(before: Db, after: Db, room: RoomId, me: Handle, at: Time, message: Option<nat>) {
    && me in before.participants
    && var p := before.participants[me].(lastPollAt := at);
       match message
       case None =>
         && after == before.(participants := before.participants[me := p])
         && (AloneInOpen(before, room, me) || NothingFor(before, room, me))
       case Some(m) =>
         && after == before.(participants := before.participants[me := p.(cursor := m, claimed := p.claimed + [m])])
         && !AloneInOpen(before, room, me) && IsNextFor(before, room, me, m)
  }

  /** A poll is nothing to those who look for company, proposals and messages on behalf of the one who polls. */
  lemma PollChangesNothing(d: Db, room: RoomId, me: Handle, at: Time)
    requires me in d.participants
    ensures var d' := TouchLastPoll(d, me, at);
      && (Accompanied(d', room, me) <==> Accompanied(d, room, me))
          && (SaidAway(d', room, me) <==> SaidAway(d, room, me))
      && (forall now :: OthersDark(d', room, me, now) <==> OthersDark(d, room, me, now))
      && (forall now :: CloseAwaits(d', room, me, now) <==> CloseAwaits(d, room, me, now))
      && (forall now :: ExtendAwaits(d', room, me, now) <==> ExtendAwaits(d, room, me, now))
  {
    hide SaidAway;
    var d' := TouchLastPoll(d, me, at);
    assert d'.participants.Keys == d.participants.Keys;
    assert forall h :: h in d.participants && h != me ==> d'.participants[h] == d.participants[h];
    assert SaidAway(d', room, me) <==> SaidAway(d, room, me) by { SameAway(d, d', room, me); }
  }

  lemma SameAway(d: Db, d': Db, room: RoomId, me: Handle)
    requires d'.messages == d.messages
    ensures SaidAway(d', room, me) <==> SaidAway(d, room, me)
  {
  }

  lemma ClaimCame(d: Db, room: RoomId, me: Handle, at: Time)
    requires me in d.participants && !AloneInOpen(d, room, me)
    ensures var d', next := TouchLastPoll(d, me, at), NextUnread(d.messages, room, me, d.participants[me].cursor);
      WaitCame(d, if next.Some? then AdvanceCursor(d', me, d.participants[me].cursor, next.value).0 else d',
               room, me, at, next)
  {
    NextIsNext(d, room, me);
    hide IsNextFor, NothingFor, AloneInOpen, NextUnread;
  }
}
