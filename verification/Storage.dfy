/** The database behind the daemon: four tables rewritten in place, one method per statement or transaction. Each method
    is proved to do to the tables what the statement function it is named after says. */
module Storage {
  import opened Wrappers
  import opened Lifecycle
  import opened Tables
  import Claims
  import SoftCap

  class Storage {
    var rooms: map<RoomId, Room>
    var participants: map<Handle, Participant>
    var messages: seq<Message>
    var events: seq<Event>
    var nextRow: nat
    var casts: nat

    ghost function Db(): Db
      reads this
    {
      Tables.Db(rooms, participants, messages, events, nextRow, casts)
    }

    constructor ()
      ensures Db() == EMPTY
    {
      rooms, participants, messages, events, nextRow, casts := map[], map[], [], [], 0, 0;
    }

    method CreateRoom(id: RoomId, room: Room) returns (created: bool)
      modifies this
      ensures (Db(), created) == InsertRoom(old(Db()), id, room)
    {
      created := id !in rooms;
      if created {
        rooms := rooms[id := room];
      }
    }

    method GetParticipantByInstance(room: RoomId, instance: string) returns (found: Option<Handle>)
      ensures found.Some? ==> HasInstance(Db(), room, instance, found.value)
      ensures found.None? ==> forall h :: !HasInstance(Db(), room, instance, h)
      ensures RowsUnique(Db()) ==> found == ByInstance(Db(), room, instance)
    {
      var rest := participants.Keys;
      while rest != {}
        invariant rest <= participants.Keys
        invariant forall h :: h in participants.Keys - rest ==> !HasInstance(Db(), room, instance, h)
        decreases |rest|
      {
        var h :| h in rest;
        if participants[h].room == room && participants[h].instance == instance {
          assert HasInstance(Db(), room, instance, h);
          return Some(h);
        }
        rest := rest - {h};
      }
      found := None;
    }

    method GetRoom(id: RoomId) returns (room: Option<Room>)
      ensures room == if id in rooms then Some(rooms[id]) else None
    {
      room := if id in rooms then Some(rooms[id]) else None;
    }

    method GetParticipantByHandle(room: RoomId, handle: string) returns (found: Option<Handle>)
      ensures found == if HasHandle(Db(), room, handle) then Some(handle) else None
    {
      found := if handle in participants && participants[handle].room == room then Some(handle) else None;
    }

    method ListParticipants(room: RoomId) returns (roster: Roster)
      ensures roster == RosterOf(Db(), room)
    {
      roster := map h | h in participants && participants[h].room == room :: participants[h];
    }

    /** The row is refused when its handle is taken anywhere, or its instance in its room. */
    method CreateParticipant(h: Handle, p: Participant) returns (created: bool)
      modifies this
      ensures (Db(), created) == InsertParticipant(old(Db()), h, p)
    {
      var twin := GetParticipantByInstance(p.room, p.instance);
      created := h !in participants && twin.None?;
      assert twin.None? <==> ByInstance(Db(), p.room, p.instance).None?;
      if created {
        participants := participants[h := p.(row := nextRow)];
        nextRow := nextRow + 1;
      }
    }

    method SetCloseVote(h: Handle, at: Option<Time>, voter: RequestId)
      modifies this
      ensures at.Some? ==> Db() == CastCloseVote(old(Db()), h, at.value, voter)
      ensures at.None? ==> Db() == RetractCloseVote(old(Db()), h)
    {
      if h in participants {
        match at
        case Some(now) =>
          participants := participants[h := participants[h].(wantsClose := Some(Vote(now, voter, casts)))];
          casts := casts + 1;
        case None =>
          participants := participants[h := participants[h].(wantsClose := None)];
      }
    }

    method ClearCloseVotes(room: RoomId)
      modifies this
      ensures Db() == Tables.ClearCloseVotes(old(Db()), room)
    {
      participants := map h | h in participants ::
        if participants[h].room == room then participants[h].(wantsClose := None) else participants[h];
    }

    method ClearExtendVote(h: Handle)
      modifies this
      ensures Db() == Tables.ClearExtendVote(old(Db()), h)
    {
      if h in participants {
        participants := participants[h := participants[h].(wantsExtend := None)];
      }
    }

    method TouchLastPoll(h: Handle, now: Time)
      modifies this
      ensures Db() == Tables.TouchLastPoll(old(Db()), h, now)
    {
      if h in participants {
        participants := participants[h := participants[h].(lastPollAt := now)];
      }
    }

    method TouchLastActivity(room: RoomId, now: Time)
      modifies this
      ensures Db() == Tables.TouchLastActivity(old(Db()), room, now)
    {
      if room in rooms {
        rooms := rooms[room := rooms[room].(lastActivityAt := now)];
      }
    }

    method CastExtendVote(h: Handle, at: Time, voter: RequestId)
      modifies this
      ensures Db() == Tables.CastExtendVote(old(Db()), h, at, voter)
    {
      if h in participants {
        participants := participants[h := participants[h].(wantsExtend := Some(Vote(at, voter, casts)),
                                                           lastPollAt := at)];
        casts := casts + 1;
      }
    }

    method RaiseCap(room: RoomId, bump: Bump) returns (raised: int)
      requires room in rooms
      modifies this
      ensures Db() == Tables.RaiseCap(old(Db()), room, bump)
      ensures raised == rooms[room].hardCap == old(rooms[room].hardCap) + EXTEND_STEP
    {
      var r := rooms[room];
      raised := r.hardCap + EXTEND_STEP;
      rooms := rooms[room := r.(hardCap := raised, bumps := r.bumps + [bump])];
    }

    method ClearExtendVotes(room: RoomId)
      modifies this
      ensures Db() == Tables.ClearExtendVotes(old(Db()), room)
    {
      participants := map h | h in participants ::
        if participants[h].room == room then participants[h].(wantsExtend := None) else participants[h];
    }

    /** The transaction of an extend: vote, count the live and the voters among them, and at quorum raise the cap and
        clear the votes. */
    method TryExtend(room: RoomId, voter: Handle, now: Time, cutoff: Time, quorum: CloseQuorum, request: RequestId)
      returns (outcome: ExtendOutcome)
      requires room in rooms
      modifies this
      ensures (Db(), outcome) == Tables.TryExtend(old(Db()), room, voter, now, cutoff, quorum, request)
    {
      CastExtendVote(voter, now, request);
      var roster := map h | h in participants && participants[h].room == room :: participants[h];
      assert roster == RosterOf(Db(), room);
      var live := set h | h in roster && roster[h].lastPollAt >= cutoff;
      var voted := set h | h in roster && roster[h].lastPollAt >= cutoff && roster[h].wantsExtend.Some?;
      assert live == PolledSince(roster, cutoff) && voted == ExtendVotersSince(roster, cutoff);
      var needed := quorum.Needed(|live|);
      hide RosterOf, PolledSince, ExtendVotersSince, Tables.CastExtendVote, Tables.ClearExtendVotes;
      if |voted| >= needed {
        var raised := RaiseCap(room, Bump(roster, cutoff, casts));
        ClearExtendVotes(room);
        outcome := Extended(raised);
      } else {
        outcome := Proposed(|voted|, needed);
      }
    }

    method CountCappedMessages(room: RoomId) returns (count: nat)
      ensures count == CountCapped(messages, room)
    {
      count := 0;
      for i := 0 to |messages|
        invariant count == CountCapped(messages[..i], room)
      {
        assert messages[..i + 1][..i] == messages[..i];
        count := count + Counted(messages[i], room);
      }
      assert messages[..|messages|] == messages;
    }

    method CreateMessageTyped(m: Message)
      modifies this
      ensures Db() == Append(old(Db()), m)
    {
      messages := messages + [m];
    }

    /** The guarded insert: no cap-counting message beyond the cap, and nothing written when refused. */
    method CreateMessageCapped(m: Message, hardCap: int) returns (landed: bool)
      modifies this
      ensures (Db(), landed) == AppendCapped(old(Db()), m, hardCap)
      ensures messages == old(messages) + if landed then [m] else []
      ensures landed && m.kind.Msg? ==> CountCapped(messages, m.room) <= hardCap
    {
      var count := CountCappedMessages(m.room);
      landed := count < hardCap;
      if landed {
        messages := messages + [m];
      }
    }

    /** The oldest message for this reader past `after`. */
    method NextUnread(room: RoomId, me: Handle, after: nat) returns (r: Option<nat>)
      ensures r == Tables.NextUnread(messages, room, me, after)
    {
      var k := after;
      while k < |messages|
        invariant k >= after
        invariant Tables.NextUnread(messages, room, me, after) == Tables.NextUnread(messages, room, me, k)
      {
        k := k + 1;
        if Relevant(messages, room, me, k) {
          return Some(k);
        }
      }
      r := None;
    }

    method LatestMessageFromOther(room: RoomId, me: Handle) returns (r: Option<Message>)
      ensures r == LatestFromOther(messages, room, me)
    {
      var n := |messages|;
      assert messages[..n] == messages;
      while n > 0
        invariant n <= |messages|
        invariant LatestFromOther(messages, room, me) == LatestFromOther(messages[..n], room, me)
      {
        var m := messages[n - 1];
        assert messages[..n][..n - 1] == messages[..n - 1];
        if m.room == room && m.sender != me {
          return Some(m);
        }
        n := n - 1;
      }
      r := None;
    }

    method CurrentSeq(room: RoomId) returns (n: nat)
      ensures n == Tables.CurrentSeq(messages, room)
    {
      n := |messages|;
      assert messages[..n] == messages;
      while n > 0 && messages[n - 1].room != room
        invariant n <= |messages|
        invariant Tables.CurrentSeq(messages, room) == Tables.CurrentSeq(messages[..n], room)
      {
        assert messages[..n][..n - 1] == messages[..n - 1];
        n := n - 1;
      }
    }

    /** The turns since the last break, up to and including this seq. */
    method ConsecutiveMsgCount(room: RoomId, upTo: nat) returns (count: nat)
      requires upTo <= |messages|
      ensures count == SoftCap.Run(messages, room, upTo)
    {
      var boundary: nat := upTo;
      while boundary > 0 && !SoftCap.BreaksRun(messages, room, boundary)
        invariant boundary <= upTo
        invariant forall j :: boundary < j <= upTo ==> !SoftCap.BreaksRun(messages, room, j)
      {
        boundary := boundary - 1;
      }
      var turns := set k | boundary < k <= upTo && SoftCap.IsTurn(messages, room, k);
      assert turns == SoftCap.TurnsWithin(messages, room, boundary, upTo);
      SoftCap.QueryIsRun(messages, room, upTo, boundary);
      count := |turns|;
    }

    /** The window of recent messages, fetched newest first and handed back in order. */
    method RecentMessagesUpTo(room: RoomId, max: nat, limit: nat) returns (recent: seq<nat>)
      ensures recent == RecentUpTo(messages, room, max, limit)
    {
      recent := [];
      var n := |messages|;
      assert messages[..n] == messages;
      while n > 0 && |recent| < limit
        invariant n <= |messages| && |recent| <= limit
        invariant RecentUpTo(messages, room, max, limit)
            == RecentUpTo(messages[..n], room, max, limit - |recent|) + recent
      {
        assert messages[..n][..n - 1] == messages[..n - 1];
        if messages[n - 1].room == room && n <= max {
          recent := [n] + recent;
        }
        n := n - 1;
      }
    }

    /** The compare-and-swap on a read cursor. */
    method AdvanceCursor(h: Handle, before: nat, after: nat) returns (swapped: bool)
      modifies this
      ensures (Db(), swapped) == Tables.AdvanceCursor(old(Db()), h, before, after)
    {
      swapped := h in participants && participants[h].cursor == before;
      if swapped {
        var p := participants[h];
        participants := participants[h := p.(cursor := after, claimed := p.claimed + [after])];
      }
    }

    /** A claim nobody interferes with. */
    method ClaimAlone(room: RoomId, h: Handle) returns (claimed: Option<nat>)
      modifies this
      ensures (Db(), claimed) == ClaimNext(old(Db()), room, h)
    {
      if h !in participants {
        return None;
      }
      claimed := NextUnread(room, h, participants[h].cursor);
      if claimed.Some? {
        var _ := AdvanceCursor(h, participants[h].cursor, claimed.value);
      }
    }

    /** Claims the next message for `h` with rivals about: in round i, between this call's reads and its swap, other
        waiters of the same participant make `rivals[i]` claims of their own. However many they make, the call has the
        effect of one undisturbed claim after `before` of theirs. */
    method ClaimNextUnread(room: RoomId, h: Handle, rivals: seq<nat>) returns (claimed: Option<nat>, ghost before: nat)
      modifies this
      ensures (Db(), claimed) == ClaimNext(ClaimTimes(old(Db()), room, h, before), room, h)
    {
      var round := 0;
      before := 0;
      while true
        invariant round <= |rivals|
        invariant Db() == ClaimTimes(old(Db()), room, h, before)
        decreases |rivals| - round
      {
        if h !in participants {
          return None, before;
        }
        var cursor := participants[h].cursor;
        var next := NextUnread(room, h, cursor);
        if next.None? {
          return None, before;
        }
        ghost var log := messages;
        if round < |rivals| {
          for i := 0 to rivals[round]
            invariant Db() == ClaimTimes(old(Db()), room, h, before) && messages == log
          {
            var _ := ClaimAlone(room, h);
            before := before + 1;
          }
        }
        ghost var now := Db();
        var swapped := AdvanceCursor(h, cursor, next.value);
        if swapped {
          assert (Db(), next) == ClaimNext(now, room, h);
          return next, before;
        }
        round := round + 1;
      }
    }

    /** The transaction of a state change: the compare-and-swap and its audit row, or nothing. */
    method UpdateRoomState(room: RoomId, before: RoomState, after: RoomState, now: Time, cause: Cause, mover: RequestId)
      returns (changed: bool)
      modifies this
      ensures (Db(), changed) == Tables.UpdateRoomState(old(Db()), room, before, after, now, cause, mover)
    {
      changed := room in rooms && rooms[room].state == before;
      if changed {
        rooms := rooms[room := rooms[room].(state := after, stateChangedAt := now, changedBy := mover)];
        var kind := if after == Archived then ArchiveKind else TransitionKind;
        events := events + [Event(room, kind, before, after, now, cause, mover)];
      }
    }

    method PruneStaleParticipants(room: RoomId, cutoff: Time) returns (deleted: nat)
      modifies this
      ensures Db() == PruneStale(old(Db()), room, cutoff)
      ensures deleted == |old(participants)| - |participants|
    {
      var stale := set h | h in participants && participants[h].room == room && participants[h].lastPollAt < cutoff;
      assert participants.Keys == (participants - stale).Keys + stale;
      participants := participants - stale;
      deleted := |stale|;
    }
  }

  /** One undisturbed claim: the next message, and the tables with the cursor moved to it. */
  function ClaimNext(d: Db, room: RoomId, h: Handle): (Db, Option<nat>) {
    if h !in d.participants then (d, None)
    else
      match Tables.NextUnread(d.messages, room, h, d.participants[h].cursor)
      case None => (d, None)
      case Some(k) => (Tables.AdvanceCursor(d, h, d.participants[h].cursor, k).0, Some(k))
  }

  function ClaimTimes(d: Db, room: RoomId, h: Handle, n: nat): Db {
    if n == 0 then d else ClaimNext(ClaimTimes(d, room, h, n - 1), room, h).0
  }

  /** Any number of claims one after another hand out exactly the inbox between the cursor before and the cursor
      after. */
  lemma {:induction false} ClaimsEmptyTheInbox(d: Db, room: RoomId, h: Handle, n: nat)
    requires h in d.participants && d.participants[h].cursor <= |d.messages|
    ensures var d' := ClaimTimes(d, room, h, n);
      && d'.messages == d.messages && h in d'.participants
      && d.participants[h].cursor <= d'.participants[h].cursor <= |d.messages|
      && d'.participants[h].claimed == d.participants[h].claimed
         + Claims.Inbox(d.messages, room, h, d.participants[h].cursor, d'.participants[h].cursor)
  {
    if n > 0 {
      ClaimsEmptyTheInbox(d, room, h, n - 1);
      var before := ClaimTimes(d, room, h, n - 1);
      var cursor := before.participants[h].cursor;
      var next := Tables.NextUnread(d.messages, room, h, cursor);
      if next.Some? {
        Claims.InboxGrows(d.messages, room, h, d.participants[h].cursor, cursor, next.value);
      }
    }
  }
}
