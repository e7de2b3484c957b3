/** A sleeping long-poll and the votes of others: a proposal that calls for its decision finds it asleep, with no ring
    owed, exactly in four cases. The voter was dark when the waiter last checked and has polled since; or the waiter was
    dark when a close counted the vote, met its quorum, lost the room to a concurrent change and answered a conflict; or
    the vote was cast by a request to another room; or a request to another room has taken the waiter's own vote. */
module VoteWakeup {
  import opened Wrappers
  import opened Lifecycle
  import opened Tables
  import opened Protocol
  import opened Evolution
  import opened Effects
  import opened Claims
  import opened Wakeup
  import opened CloseSafety

  // ---- who still owes a ring ----

  ghost predicate CloseVoteDue(s: State, caster: RequestId, room: RoomId) {
    caster in s.requests && s.requests[caster].call.room == room && HasVotedClose(s.requests[caster])
  }

  ghost predicate ExtendVoteDue(s: State, caster: RequestId, room: RoomId) {
    caster in s.requests && s.requests[caster].call.room == room && HasVotedExtend(s.requests[caster].pc)
  }

  /** Points from which a request can only go on to its ring. */
  predicate Owing(pc: Pc) {
    HasInserted(pc) || HasVotedExtend(pc)
  }

  ghost predicate RingOwed(s: State, room: RoomId) {
    exists id :: id in s.requests && s.requests[id].call.room == room && Owing(s.requests[id].pc)
  }

  // ---- what comes from other rooms ----

  datatype VoteKind = CloseVote | ExtendVote

  /** The row has a vote of this kind. */
  predicate HasVote(p: Participant, kind: VoteKind) {
    if kind.CloseVote? then p.wantsClose.Some? else p.wantsExtend.Some?
  }

  /** The step takes the vote of `me` in the room on behalf of a send to another room, whose sender was pruned there and
      whose handle has been minted again here. */
  predicate Takes(d: Db, r: Request, room: RoomId, me: Handle, kind: VoteKind) {
    && HasHandle(d, room, me) && HasVote(d.participants[me], kind) && r.call.room != room
    && r.pc.Sending? && r.pc.me == me
    && if kind.CloseVote? then r.pc.send.DropCloseVote? else r.pc.send.DropExtendVote?
  }

  /** The vote was cast by a request to another room, which rings there. */
  predicate CameFromOutside(s: State, room: RoomId, v: Vote) {
    v.castBy < |s.calls| && s.calls[v.castBy].room != room
  }

  // ---- what a step does to votes ----

  /** A vote standing after the step stood before it, or its request has just cast it and, if the room is its own, is
      about to count. A vote taken away leaves a ring owed in its room, unless the step takes it for another one. */
  ghost predicate CloseVoteStep(d: Db, id: RequestId, r: Request, next: Next, h: Handle, p': Participant) {
    && (p'.wantsClose.Some? ==>
          && h in d.participants && p'.room == d.participants[h].room
          && (|| p'.wantsClose == d.participants[h].wantsClose
              || (&& p'.wantsClose.value.castBy == id
                  && (p'.room == r.call.room ==> next.Goto? && next.pc.Closing? && next.pc.close.CountVotes?))))
    && (h in d.participants && d.participants[h].wantsClose.Some? && p'.wantsClose.None? ==>
          || (d.participants[h].room == r.call.room && next.Goto? && Owing(next.pc))
          || Takes(d, r, d.participants[h].room, h, CloseVote))
  }

  ghost predicate ExtendVoteStep(d: Db, id: RequestId, r: Request, next: Next, h: Handle, p': Participant) {
    && (p'.wantsExtend.Some? ==>
          && h in d.participants && p'.room == d.participants[h].room
          && (|| p'.wantsExtend == d.participants[h].wantsExtend
              || (&& p'.wantsExtend.value.castBy == id
                  && (p'.room == r.call.room ==> next.Goto? && HasVotedExtend(next.pc)))))
    && (h in d.participants && d.participants[h].wantsExtend.Some? && p'.wantsExtend.None? ==>
          || (d.participants[h].room == r.call.room && next.Goto? && Owing(next.pc))
          || Takes(d, r, d.participants[h].room, h, ExtendVote))
  }

  ghost predicate VoteStep(d: Db, id: RequestId, r: Request, d': Db, next: Next) {
    forall h :: h in d'.participants ==>
      CloseVoteStep(d, id, r, next, h, d'.participants[h]) && ExtendVoteStep(d, id, r, next, h, d'.participants[h])
  }

  lemma VotingOwes(d: Db, id: RequestId, r: Request, pinged: bool, t: Tick)
    requires Fits(r.call, r.pc) && SnapshotOk(d, r)
    ensures var next := Advance(d, id, r, pinged, t).1;
      match r.pc
      case Closing(_, _, CastVote(_)) => next.Goto? && next.pc.Closing? && next.pc.close.CountVotes?
      case Closing(_, _, ClearVotes) => next.Goto? && Owing(next.pc)
      case Extending(_, _, VoteAndCount) => next.Goto? && HasVotedExtend(next.pc)
      case Sending(_, _, step) => step.DropCloseVote? || step.DropExtendVote? ==> next.Goto? && Owing(next.pc)
      case _ => true
  {
    hide TryExtend;
  }

  lemma AdvanceVotes(d: Db, id: RequestId, r: Request, pinged: bool, t: Tick)
    requires Fits(r.call, r.pc) && SnapshotOk(d, r)
    ensures var (d', next) := Advance(d, id, r, pinged, t); VoteStep(d, id, r, d', next)
  {
    hide Advance, SnapshotOk, HasInserted;
    var (d', next) := Advance(d, id, r, pinged, t);
    AdvanceRows(d, id, r, pinged, t);
    VotingOwes(d, id, r, pinged, t);
    forall h | h in d'.participants
      ensures CloseVoteStep(d, id, r, next, h, d'.participants[h])
          && ExtendVoteStep(d, id, r, next, h, d'.participants[h])
    {
      assert RowKept(d, id, r, t, h, d'.participants[h]);
    }
  }

  // ---- what the counts saw ----

  /** The roster in which the request has counted enough votes. */
  function CountingOf(pc: Pc): Option<Sighting> {
    match pc
    case Closing(_, _, SwapClosed(_, _, Consensus(c))) => Some(c)
    case Closing(_, _, Recheck(Consensus(c))) => Some(c)
    case _ => None
  }

  function CountOf(s: State, caster: RequestId): Option<Sighting> {
    if caster in s.unannounced then Some(s.unannounced[caster])
    else if caster in s.requests then CountingOf(s.requests[caster].pc)
    else None
  }

  function CountAfter(next: Next): Option<Sighting> {
    match next
    case Goto(pc) => CountingOf(pc)
    case Conflict(c) => Some(c)
    case _ => None
  }

  /** A count is made on the roster as it stands, by a step that changes nothing, and then carried along. */
  ghost predicate CountStep(d: Db, r: Request, d': Db, next: Next) {
    CountAfter(next).Some? ==>
      || CountAfter(next) == CountingOf(r.pc)
      || (d' == d && CountAfter(next).value.roster == RosterOf(d, r.call.room))
  }

  lemma AdvanceCounts(d: Db, id: RequestId, r: Request, pinged: bool, t: Tick)
    requires Fits(r.call, r.pc) && SnapshotOk(d, r)
    ensures var (d', next) := Advance(d, id, r, pinged, t); CountStep(d, r, d', next)
  {
    var (d', next) := Advance(d, id, r, pinged, t);
    AdvanceReason(d, id, r, pinged, t);
    if r.pc.Closing? && r.pc.close.CountVotes? { assert d' == d; }
    hide Advance, RosterOf, Quorate, SnapshotOk;
  }

  // ---- what a sleeper has checked ----

  ghost predicate StillVotes(d: Db, me: Handle) {
    me in d.participants && d.participants[me].wantsClose.Some?
  }

  ghost predicate StillVotesExtend(d: Db, me: Handle) {
    me in d.participants && d.participants[me].wantsExtend.Some?
  }

  /** The waiter's row was in the counted roster, and if it had a close vote there, it still has, or somebody is about
      to ring. */
  ghost predicate Accounted(s: State, w: RequestId, c: Sighting)
    requires w in s.requests && s.requests[w].pc.Waiting?
  {
    var pc := s.requests[w].pc;
    && pc.me in c.roster && c.roster[pc.me].row == pc.row
    && (c.roster[pc.me].wantsClose.Some? ==> StillVotes(s.db, pc.me) || RingOwed(s, s.requests[w].call.room))
  }

  ghost predicate CloseVoteKnown(s: State, w: RequestId, saw: Sighting, h: Handle, v: Vote)
    requires w in s.requests && s.requests[w].pc.Waiting?
  {
    || (h in saw.roster && saw.roster[h].wantsClose == Some(v))
    || CameFromOutside(s, s.requests[w].call.room, v)
    || (&& (CloseVoteDue(s, v.castBy, s.requests[w].call.room) || v.castBy in s.unannounced)
        && (CountOf(s, v.castBy).Some? ==> Accounted(s, w, CountOf(s, v.castBy).value)))
  }

  ghost predicate ExtendVoteKnown(s: State, room: RoomId, saw: Sighting, h: Handle, v: Vote) {
    || (h in saw.roster && saw.roster[h].wantsExtend == Some(v))
    || CameFromOutside(s, room, v)
    || ExtendVoteDue(s, v.castBy, room)
  }

  ghost predicate VotesTo(d: Db, room: RoomId, me: Handle, h: Handle) {
    h in d.participants && h != me && d.participants[h].room == room
  }

  /** What the check saw called for no decision; the waiter's own vote, if it had one, still stands or somebody is about
      to ring; and every close vote standing now is accounted for. */
  ghost predicate CloseChecked(s: State, w: RequestId, saw: Sighting)
    requires w in s.requests && s.requests[w].pc.Waiting?
  {
    var me, room := s.requests[w].pc.me, s.requests[w].call.room;
    && !CloseProposed(saw.roster, me, saw.at)
    && (Silent(s, w) && OwnRow(s.db, s.requests[w].pc) ==>
          && (me in saw.roster && saw.roster[me].wantsClose.Some? ==> StillVotes(s.db, me) || RingOwed(s, room))
          && forall h :: VotesTo(s.db, room, me, h) && s.db.participants[h].wantsClose.Some? ==>
               CloseVoteKnown(s, w, saw, h, s.db.participants[h].wantsClose.value))
  }

  ghost predicate ExtendChecked(s: State, w: RequestId, saw: Sighting)
    requires w in s.requests && s.requests[w].pc.Waiting?
  {
    var me, room := s.requests[w].pc.me, s.requests[w].call.room;
    && !ExtendProposed(saw.roster, me, saw.at)
    && (Silent(s, w) && OwnRow(s.db, s.requests[w].pc) ==>
          && (me in saw.roster && saw.roster[me].wantsExtend.Some? ==> StillVotesExtend(s.db, me) || RingOwed(s, room))
          && forall h :: VotesTo(s.db, room, me, h) && s.db.participants[h].wantsExtend.Some? ==>
               ExtendVoteKnown(s, room, saw, h, s.db.participants[h].wantsExtend.value))
  }

  /** What the waiter's last check for votes of this kind read, if it is past it. */
  function SawAt(s: State, w: RequestId, kind: VoteKind): Option<Sighting> {
    if w !in s.requests then None
    else
      match s.requests[w].pc
      case Waiting(_, _, _, YieldOnExtend(sawClose)) => if kind.CloseVote? then Some(sawClose) else None
      case Waiting(_, _, _, Parked(sawClose, sawExtend)) => Some(if kind.CloseVote? then sawClose else sawExtend)
      case _ => None
  }

  ghost predicate Checked(s: State, w: RequestId, kind: VoteKind, saw: Sighting)
    requires w in s.requests && s.requests[w].pc.Waiting?
  {
    if kind.CloseVote? then CloseChecked(s, w, saw) else ExtendChecked(s, w, saw)
  }

  ghost predicate VotesChecked(s: State, w: RequestId, kind: VoteKind) {
    SawAt(s, w, kind).Some? ==> Checked(s, w, kind, SawAt(s, w, kind).value)
  }

  // ---- the steps of others ----

  /** What another request's step has to meet for a sleeper to stay covered. */
  ghost predicate VotesFairly(s: State, id: RequestId, d': Db, next: Next)
    requires id in s.requests
  {
    var r := s.requests[id];
    && id < |s.calls| && s.calls[id] == r.call
    && VoteStep(s.db, id, r, d', next)
    && CountStep(s.db, r, d', next)
    && Evolves(s.db, d')
    && (HasVotedClose(r) ==> next.Ring? || next.Conflict? || (next.Goto? && HasVotedClose(Request(r.call, next.pc))))
    && (HasVotedExtend(r.pc) ==> next.Ring? || (next.Goto? && HasVotedExtend(next.pc)))
    && (HasInserted(r.pc) ==> next.Ring? || (next.Goto? && HasInserted(next.pc)))
  }

  /** The setting of one step of a request beside a sleeping one. */
  ghost predicate Beside(s: State, id: RequestId, d': Db, next: Next, t: Tick, w: RequestId)
    requires id in s.requests && w in s.requests
  {
    && w != id && s.requests[w].pc.Waiting? && RowHome(s.db, s.requests[w]) && VotesFairly(s, id, d', next)
    && Silent(Apply(s, id, d', next, t), w) && OwnRow(d', s.requests[w].pc)
  }

  lemma StaysBeside(s: State, id: RequestId, d': Db, next: Next, t: Tick, w: RequestId)
    requires id in s.requests && w in s.requests && Beside(s, id, d', next, t, w)
    ensures Silent(s, w) && OwnRow(s.db, s.requests[w].pc)
    ensures s.db.participants[s.requests[w].pc.me].room == s.requests[w].call.room
    ensures next.Ring? ==> s.requests[id].call.room != s.requests[w].call.room
  {
  }

  lemma RingStaysOwed(s: State, id: RequestId, d': Db, next: Next, t: Tick, w: RequestId)
    requires id in s.requests && w in s.requests && Beside(s, id, d', next, t, w)
    ensures var room := s.requests[w].call.room;
      RingOwed(s, room) || (next.Goto? && Owing(next.pc) && s.requests[id].call.room == room)
      ==> RingOwed(Apply(s, id, d', next, t), room)
  {
    StaysBeside(s, id, d', next, t, w);
    var room, s' := s.requests[w].call.room, Apply(s, id, d', next, t);
    hide VoteStep, CountStep, Evolves, HasInserted, HasVotedExtend, HasVotedClose;
    if next.Goto? && Owing(next.pc) && s.requests[id].call.room == room {
      assert s'.requests[id].pc == next.pc;
    } else if RingOwed(s, room) {
      var o :| o in s.requests && s.requests[o].call.room == room && Owing(s.requests[o].pc);
      assert o != id ==> s'.requests[o] == s.requests[o];
    }
  }

  lemma MyVoteStays(s: State, id: RequestId, d': Db, next: Next, t: Tick, w: RequestId)
    requires id in s.requests && w in s.requests && Beside(s, id, d', next, t, w)
    ensures var me, room, s' := s.requests[w].pc.me, s.requests[w].call.room, Apply(s, id, d', next, t);
      && (!Takes(s.db, s.requests[id], room, me, CloseVote) && (StillVotes(s.db, me) || RingOwed(s, room)) ==>
            StillVotes(d', me) || RingOwed(s', room))
      && (!Takes(s.db, s.requests[id], room, me, ExtendVote) && (StillVotesExtend(s.db, me) || RingOwed(s, room)) ==>
            StillVotesExtend(d', me) || RingOwed(s', room))
  {
    hide CountStep, Evolves, HasVotedClose, RingOwed, Owing, Apply, RowHome, Takes;
    StaysBeside(s, id, d', next, t, w);
    RingStaysOwed(s, id, d', next, t, w);
    var me := s.requests[w].pc.me;
    assert me in d'.participants;
    assert CloseVoteStep(s.db, id, s.requests[id], next, me, d'.participants[me]);
    assert ExtendVoteStep(s.db, id, s.requests[id], next, me, d'.participants[me]);
  }

  /** Whoever has answered a conflict is gone. */
  ghost predicate ConflictsGone(s: State) {
    forall id :: id in s.unannounced ==> id !in s.requests && id < |s.calls|
  }

  lemma CountStaysKnown(s: State, id: RequestId, d': Db, next: Next, t: Tick, w: RequestId, caster: RequestId)
    requires id in s.requests && w in s.requests && Beside(s, id, d', next, t, w) && ConflictsGone(s)
    requires !Takes(s.db, s.requests[id], s.requests[w].call.room, s.requests[w].pc.me, CloseVote)
    requires CloseVoteDue(s, caster, s.requests[w].call.room) || caster in s.unannounced
    requires CountOf(s, caster).Some? ==> Accounted(s, w, CountOf(s, caster).value)
    ensures var s' := Apply(s, id, d', next, t);
      w in s'.requests && s'.requests[w] == s.requests[w]
      && (CountOf(s', caster).Some? ==> Accounted(s', w, CountOf(s', caster).value))
  {
    StaysBeside(s, id, d', next, t, w);
    MyVoteStays(s, id, d', next, t, w);
    var s' := Apply(s, id, d', next, t);
    assert s'.db == d' && s'.requests[w] == s.requests[w];
    var count := CountOf(s', caster);
    hide VoteStep, Evolves, HasVotedClose, HasVotedExtend, HasInserted, RingOwed, RowHome, Silent, Takes;
    if caster == id {
      assert count.Some? ==> count == CountAfter(next);
      if count.Some? && count != CountOf(s, id) {
        assert d' == s.db && count.value.roster == RosterOf(s.db, s.requests[w].call.room);
      }
    } else {
      assert count == CountOf(s, caster);
    }
  }

  lemma DueStays(s: State, id: RequestId, d': Db, next: Next, t: Tick, w: RequestId, caster: RequestId)
    requires id in s.requests && w in s.requests && Beside(s, id, d', next, t, w)
    ensures var room, s' := s.requests[w].call.room, Apply(s, id, d', next, t);
      && (CloseVoteDue(s, caster, room) || caster in s.unannounced ==>
            CloseVoteDue(s', caster, room) || caster in s'.unannounced)
      && (ExtendVoteDue(s, caster, room) ==> ExtendVoteDue(s', caster, room))
  {
    StaysBeside(s, id, d', next, t, w);
    hide VoteStep, CountStep, Evolves, HasInserted, HasVotedClose, HasVotedExtend, RowHome, Silent, OwnRow;
  }

  lemma CloseOther(s: State, id: RequestId, d': Db, next: Next, t: Tick, w: RequestId, saw: Sighting)
    requires id in s.requests && w in s.requests && w != id && s.requests[w].pc.Waiting? && RowHome(s.db, s.requests[w])
    requires VotesFairly(s, id, d', next) && ConflictsGone(s) && CloseChecked(s, w, saw)
    requires !Takes(s.db, s.requests[id], s.requests[w].call.room, s.requests[w].pc.me, CloseVote)
    ensures var s' := Apply(s, id, d', next, t);
      w in s'.requests && s'.requests[w] == s.requests[w] && CloseChecked(s', w, saw)
  {
    var s' := Apply(s, id, d', next, t);
    assert s'.db == d' && w in s'.requests && s'.requests[w] == s.requests[w];
    var me, room := s.requests[w].pc.me, s.requests[w].call.room;
    hide Apply, CloseProposed, CountStep, Evolves, RowHome, HasInserted, HasVotedClose, HasVotedExtend, Takes;
    if Silent(s', w) && OwnRow(d', s.requests[w].pc) {
      assert Beside(s, id, d', next, t, w);
      StaysBeside(s, id, d', next, t, w);
      MyVoteStays(s, id, d', next, t, w);
      forall h | VotesTo(d', room, me, h) && d'.participants[h].wantsClose.Some?
        ensures CloseVoteKnown(s', w, saw, h, d'.participants[h].wantsClose.value)
      {
        CloseVoteOther(s, id, d', next, t, w, saw, h);
      }
    }
  }

  lemma CloseVoteOther(s: State, id: RequestId, d': Db, next: Next, t: Tick, w: RequestId, saw: Sighting, h: Handle)
    requires id in s.requests && w in s.requests && Beside(s, id, d', next, t, w) && ConflictsGone(s)
    requires CloseChecked(s, w, saw)
    requires !Takes(s.db, s.requests[id], s.requests[w].call.room, s.requests[w].pc.me, CloseVote)
    requires VotesTo(d', s.requests[w].call.room, s.requests[w].pc.me, h) && d'.participants[h].wantsClose.Some?
    ensures var s' := Apply(s, id, d', next, t);
      && w in s'.requests && s'.requests[w] == s.requests[w]
      && CloseVoteKnown(s', w, saw, h, d'.participants[h].wantsClose.value)
  {
    StaysBeside(s, id, d', next, t, w);
    var s', v, room := Apply(s, id, d', next, t), d'.participants[h].wantsClose.value, s.requests[w].call.room;
    assert s'.requests[w] == s.requests[w];
    assert CloseVoteStep(s.db, id, s.requests[id], next, h, d'.participants[h]);
    if s.db.participants[h].wantsClose == Some(v) {
      assert CloseVoteKnown(s, w, saw, h, v);
      DueStays(s, id, d', next, t, w, v.castBy);
      if !(h in saw.roster && saw.roster[h].wantsClose == Some(v)) && !CameFromOutside(s, room, v) {
        CountStaysKnown(s, id, d', next, t, w, v.castBy);
      }
    } else if s.requests[id].call.room == room {
      assert id in s'.requests && s'.requests[id].pc == next.pc && id !in s'.unannounced;
      assert CloseVoteDue(s', id, room) && CountOf(s', id).None?;
    } else {
      assert CameFromOutside(s', room, v);
    }
  }

  lemma ExtendOther(s: State, id: RequestId, d': Db, next: Next, t: Tick, w: RequestId, saw: Sighting)
    requires id in s.requests && w in s.requests && w != id && s.requests[w].pc.Waiting? && RowHome(s.db, s.requests[w])
    requires VotesFairly(s, id, d', next) && ExtendChecked(s, w, saw)
    requires !Takes(s.db, s.requests[id], s.requests[w].call.room, s.requests[w].pc.me, ExtendVote)
    ensures var s' := Apply(s, id, d', next, t);
      w in s'.requests && s'.requests[w] == s.requests[w] && ExtendChecked(s', w, saw)
  {
    var s' := Apply(s, id, d', next, t);
    assert s'.db == d' && w in s'.requests && s'.requests[w] == s.requests[w];
    var me, room := s.requests[w].pc.me, s.requests[w].call.room;
    hide Apply, ExtendProposed, CountStep, Evolves, RowHome, HasInserted, HasVotedClose, HasVotedExtend, Takes;
    if Silent(s', w) && OwnRow(d', s.requests[w].pc) {
      assert Beside(s, id, d', next, t, w);
      StaysBeside(s, id, d', next, t, w);
      MyVoteStays(s, id, d', next, t, w);
      forall h | VotesTo(d', room, me, h) && d'.participants[h].wantsExtend.Some?
        ensures ExtendVoteKnown(s', room, saw, h, d'.participants[h].wantsExtend.value)
      {
        ExtendVoteOther(s, id, d', next, t, w, saw, h);
      }
    }
  }

  lemma ExtendVoteOther(s: State, id: RequestId, d': Db, next: Next, t: Tick, w: RequestId, saw: Sighting, h: Handle)
    requires id in s.requests && w in s.requests && Beside(s, id, d', next, t, w) && ExtendChecked(s, w, saw)
    requires VotesTo(d', s.requests[w].call.room, s.requests[w].pc.me, h) && d'.participants[h].wantsExtend.Some?
    ensures ExtendVoteKnown(
      Apply(s, id, d', next, t), s.requests[w].call.room, saw, h, d'.participants[h].wantsExtend.value)
  {
    StaysBeside(s, id, d', next, t, w);
    var s', v, room := Apply(s, id, d', next, t), d'.participants[h].wantsExtend.value, s.requests[w].call.room;
    assert ExtendVoteStep(s.db, id, s.requests[id], next, h, d'.participants[h]);
    if s.db.participants[h].wantsExtend == Some(v) {
      assert ExtendVoteKnown(s, room, saw, h, v);
      DueStays(s, id, d', next, t, w, v.castBy);
    } else if s.requests[id].call.room == room {
      assert id in s'.requests && s'.requests[id].pc == next.pc;
    } else {
      assert CameFromOutside(s', room, v);
    }
  }

  lemma OtherVotes(s: State, id: RequestId, d': Db, next: Next, t: Tick, w: RequestId, kind: VoteKind)
    requires id in s.requests && w in s.requests && w != id && s.requests[w].pc.Waiting? && RowHome(s.db, s.requests[w])
    requires VotesFairly(s, id, d', next) && ConflictsGone(s) && VotesChecked(s, w, kind)
    requires !Takes(s.db, s.requests[id], s.requests[w].call.room, s.requests[w].pc.me, kind)
    ensures VotesChecked(Apply(s, id, d', next, t), w, kind)
  {
    hide VotesFairly, CloseChecked, ExtendChecked, RowHome, Takes;
    if SawAt(s, w, kind).Some? {
      if kind.CloseVote? {
        CloseOther(s, id, d', next, t, w, SawAt(s, w, kind).value);
      } else {
        ExtendOther(s, id, d', next, t, w, SawAt(s, w, kind).value);
      }
    }
  }

  lemma FairStep(s: State, id: RequestId, t: Tick)
    requires WellFormed(s) && id in s.requests
    ensures var (d', next) := Advance(s.db, id, s.requests[id], id in s.pings, t); VotesFairly(s, id, d', next)
  {
    assert RequestOk(s, id);
    AdvanceVotes(s.db, id, s.requests[id], id in s.pings, t);
    AdvanceCounts(s.db, id, s.requests[id], id in s.pings, t);
    AdvanceOwes(s.db, id, s.requests[id], id in s.pings, t);
    AdvanceKeeps(s.db, id, s.requests[id], id in s.pings, t);
    hide Advance, VoteStep, CountStep, RequestOk, WellFormed, Evolves;
  }

  // ---- the sleeper's own steps ----

  /** The waiter's own step: it looks at the roster and yields if a decision is called for. */
  lemma LooksAtVotes(d: Db, id: RequestId, r: Request, pinged: bool, t: Tick)
    requires Fits(r.call, r.pc) && r.pc.Waiting?
    ensures var (d', next) := Advance(d, id, r, pinged, t);
      var saw := Sighting(RosterOf(d, r.call.room), t.now);
      next.Goto? ==>
        && next.pc.Waiting? && next.pc.me == r.pc.me && next.pc.row == r.pc.row
        && (next.pc.stage.YieldOnExtend? || next.pc.stage.Parked? ==> d' == d)
        && (next.pc.stage.YieldOnExtend? ==>
              !r.pc.stage.Parked? && next.pc.stage.sawClose == saw && !CloseProposed(saw.roster, r.pc.me, t.now))
        && (next.pc.stage.Parked? ==>
              || next.pc == r.pc
              || (r.pc.stage.YieldOnExtend? && next.pc.stage == Parked(r.pc.stage.sawClose, saw)
                  && !ExtendProposed(saw.roster, r.pc.me, t.now)))
  {
  }

  /** The same waiter a stage further, with everything else as it was. */
  ghost predicate MovedOn(s: State, s': State, w: RequestId)
    requires w in s.requests && s.requests[w].pc.Waiting?
  {
    && w in s'.requests && s'.requests[w].pc.Waiting? && s'.requests[w].call == s.requests[w].call
    && s'.requests[w].pc.me == s.requests[w].pc.me && s'.requests[w].pc.row == s.requests[w].pc.row
    && s'.db == s.db && s'.unannounced == s.unannounced && s'.calls == s.calls && (w in s'.pings <==> w in s.pings)
    && forall o :: o != w ==>
           (o in s'.requests <==> o in s.requests) && (o in s.requests ==> s'.requests[o] == s.requests[o])
  }

  lemma OwedStill(s: State, s': State, w: RequestId, room: RoomId)
    requires w in s.requests && s.requests[w].pc.Waiting? && MovedOn(s, s', w)
    ensures RingOwed(s, room) ==> RingOwed(s', room)
  {
    if o :| o in s.requests && s.requests[o].call.room == room && Owing(s.requests[o].pc) {
      assert o != w;
      assert s'.requests[o] == s.requests[o];
    }
  }

  lemma CheckKept(s: State, s': State, w: RequestId, saw: Sighting)
    requires w in s.requests && s.requests[w].pc.Waiting? && MovedOn(s, s', w) && CloseChecked(s, w, saw)
    ensures CloseChecked(s', w, saw)
  {
    var me, room := s.requests[w].pc.me, s.requests[w].call.room;
    OwedStill(s, s', w, room);
    hide CloseProposed, RingOwed;
    if Silent(s', w) && OwnRow(s'.db, s'.requests[w].pc) {
      forall h | VotesTo(s.db, room, me, h) && s.db.participants[h].wantsClose.Some?
        ensures CloseVoteKnown(s', w, saw, h, s.db.participants[h].wantsClose.value)
      {
        var v := s.db.participants[h].wantsClose.value;
        assert CloseVoteKnown(s, w, saw, h, v);
        assert CountOf(s', v.castBy) == CountOf(s, v.castBy);
      }
    }
  }

  lemma FreshCloseCheck(s: State, w: RequestId, now: Time)
    requires w in s.requests && s.requests[w].pc.Waiting?
    requires var room := s.requests[w].call.room; !CloseProposed(RosterOf(s.db, room), s.requests[w].pc.me, now)
    ensures CloseChecked(s, w, Sighting(RosterOf(s.db, s.requests[w].call.room), now))
  {
    hide CloseProposed;
  }

  lemma FreshExtendCheck(s: State, w: RequestId, now: Time)
    requires w in s.requests && s.requests[w].pc.Waiting?
    requires var room := s.requests[w].call.room; !ExtendProposed(RosterOf(s.db, room), s.requests[w].pc.me, now)
    ensures ExtendChecked(s, w, Sighting(RosterOf(s.db, s.requests[w].call.room), now))
  {
    hide ExtendProposed;
  }

  lemma OwnMove(s: State, id: RequestId, d': Db, next: Next, t: Tick)
    requires id in s.requests && s.requests[id].pc.Waiting? && next.Goto? && next.pc.Waiting? && d' == s.db
    requires next.pc.me == s.requests[id].pc.me && next.pc.row == s.requests[id].pc.row
    requires !s.requests[id].pc.stage.Parked? || next.pc == s.requests[id].pc
    ensures MovedOn(s, Apply(s, id, d', next, t), id) && Apply(s, id, d', next, t).requests[id].pc == next.pc
  {
  }

  lemma VotesOwn(s: State, id: RequestId, t: Tick, kind: VoteKind)
    requires WellFormed(s) && id in s.requests && s.requests[id].pc.Waiting? && VotesChecked(s, id, kind)
    ensures VotesChecked(Step(s, Run(id, t)), id, kind)
  {
    hide Advance, RequestOk, WellFormed, CloseProposed, ExtendProposed, CloseChecked, ExtendChecked, MovedOn;
    OwnFits(s, id);
    var r, pinged := s.requests[id], id in s.pings;
    var (d', next) := Advance(s.db, id, r, pinged, t);
    LooksAtVotes(s.db, id, r, pinged, t);
    var s' := Step(s, Run(id, t));
    assert s' == Apply(s, id, d', next, t);
    if next.Goto? && (next.pc.stage.YieldOnExtend? || next.pc.stage.Parked?) {
      OwnMove(s, id, d', next, t);
      if next.pc.stage.YieldOnExtend? {
        FreshCloseCheck(s', id, t.now);
      } else if next.pc == r.pc {
        if kind.CloseVote? { CheckKept(s, s', id, r.pc.stage.sawClose); }
        if kind.ExtendVote? { ExtendCheckKept(s, s', id, r.pc.stage.sawExtend); }
      } else {
        if kind.CloseVote? { CheckKept(s, s', id, r.pc.stage.sawClose); }
        FreshExtendCheck(s', id, t.now);
      }
    }
  }

  lemma OwnFits(s: State, id: RequestId)
    requires WellFormed(s) && id in s.requests
    ensures Fits(s.requests[id].call, s.requests[id].pc)
  {
    assert RequestOk(s, id);
  }

  lemma ExtendCheckKept(s: State, s': State, w: RequestId, saw: Sighting)
    requires w in s.requests && s.requests[w].pc.Waiting? && MovedOn(s, s', w) && ExtendChecked(s, w, saw)
    ensures ExtendChecked(s', w, saw)
  {
    var me, room := s.requests[w].pc.me, s.requests[w].call.room;
    OwedStill(s, s', w, room);
    hide ExtendProposed, RingOwed;
    if Silent(s', w) && OwnRow(s'.db, s'.requests[w].pc) {
      forall h | VotesTo(s.db, room, me, h) && s.db.participants[h].wantsExtend.Some?
        ensures ExtendVoteKnown(s', room, saw, h, s.db.participants[h].wantsExtend.value)
      {
        assert ExtendVoteKnown(s, room, saw, h, s.db.participants[h].wantsExtend.value);
      }
    }
  }

  // ---- any action, any run ----

  /** The step takes the waiter's own vote on behalf of a send to another room. */
  predicate StepTakes(s: State, a: Action, w: RequestId, kind: VoteKind) {
    && a.Run? && a.id in s.requests && w in s.requests && s.requests[w].pc.Waiting?
    && Takes(s.db, s.requests[a.id], s.requests[w].call.room, s.requests[w].pc.me, kind)
  }

  lemma RunVotes(s: State, id: RequestId, t: Tick, w: RequestId, kind: VoteKind)
    requires WellFormed(s) && VotesChecked(s, w, kind) && ConflictsGone(s) && AllHome(s) && id in s.requests
    requires !StepTakes(s, Run(id, t), w, kind)
    ensures VotesChecked(Step(s, Run(id, t)), w, kind)
  {
    hide Advance, VotesFairly, RequestOk, WellFormed, CloseChecked, ExtendChecked, RowHome, ConflictsGone, Fits, Takes;
    OwnFits(s, id);
    var r := s.requests[id];
    var (d', next) := Advance(s.db, id, r, id in s.pings, t);
    assert Step(s, Run(id, t)) == Apply(s, id, d', next, t);
    FairStep(s, id, t);
    if w != id {
      if w in s.requests && s.requests[w].pc.Waiting? { OtherVotes(s, id, d', next, t, w, kind); }
    } else if r.pc.Waiting? {
      VotesOwn(s, id, t, kind);
    } else {
      WaitersStartAfresh(s.db, id, r, id in s.pings, t);
    }
  }

  /** Requests other than long-polls are still there, and nothing about the rows has changed. */
  lemma VotesQuiet(s: State, s': State, w: RequestId, kind: VoteKind)
    requires w in s.requests && w in s'.requests && s'.requests[w] == s.requests[w] && s.requests[w].pc.Waiting?
    requires VotesChecked(s, w, kind) && s'.pings == s.pings && s'.unannounced == s.unannounced && s.calls <= s'.calls
    requires s'.db.participants == s.db.participants
    requires forall o ::
        o in s.requests && !s.requests[o].call.op.Wait? ==> o in s'.requests && s'.requests[o] == s.requests[o]
    requires forall o :: o in s.requests && (Owing(s.requests[o].pc) || HasVotedClose(s.requests[o])) ==>
      !s.requests[o].call.op.Wait?
    ensures VotesChecked(s', w, kind)
  {
    var room := s.requests[w].call.room;
    assert RingOwed(s, room) ==> RingOwed(s', room) by {
      if o :| o in s.requests && s.requests[o].call.room == room && Owing(s.requests[o].pc) {
        assert s'.requests[o] == s.requests[o];
      }
    }
    hide CloseProposed, ExtendProposed, RingOwed;
    if SawAt(s, w, kind).Some? && kind.CloseVote? { CloseQuiet(s, s', w, SawAt(s, w, kind).value); }
  }

  lemma CloseQuiet(s: State, s': State, w: RequestId, saw: Sighting)
    requires w in s.requests && w in s'.requests && s'.requests[w] == s.requests[w] && s.requests[w].pc.Waiting?
    requires CloseChecked(s, w, saw) && s'.pings == s.pings && s'.unannounced == s.unannounced && s.calls <= s'.calls
    requires s'.db.participants == s.db.participants
    requires RingOwed(s, s.requests[w].call.room) ==> RingOwed(s', s.requests[w].call.room)
    requires forall o ::
        o in s.requests && HasVotedClose(s.requests[o]) ==> o in s'.requests && s'.requests[o] == s.requests[o]
    ensures CloseChecked(s', w, saw)
  {
    hide CloseProposed, RingOwed;
    var me, room := s.requests[w].pc.me, s.requests[w].call.room;
    if Silent(s', w) && OwnRow(s'.db, s'.requests[w].pc) {
      forall h | VotesTo(s'.db, room, me, h) && s'.db.participants[h].wantsClose.Some?
        ensures CloseVoteKnown(s', w, saw, h, s'.db.participants[h].wantsClose.value)
      {
        var v := s.db.participants[h].wantsClose.value;
        assert VotesTo(s.db, room, me, h) && CloseVoteKnown(s, w, saw, h, v);
        if CloseVoteDue(s, v.castBy, room) || v.castBy in s.unannounced {
          assert CloseVoteDue(s, v.castBy, room) ==> s'.requests[v.castBy] == s.requests[v.castBy];
        }
      }
    }
  }

  lemma OwersAreNoWaits(s: State)
    requires WellFormed(s)
    ensures forall o :: o in s.requests && (Owing(s.requests[o].pc) || HasVotedClose(s.requests[o])) ==>
      !s.requests[o].call.op.Wait?
  {
    forall o | o in s.requests ensures RequestOk(s, o) {}
  }

  lemma QuietVotes(s: State, a: Action, w: RequestId, kind: VoteKind)
    requires WellFormed(s) && VotesChecked(s, w, kind) && !a.Run?
    ensures VotesChecked(Step(s, a), w, kind)
  {
    hide WellFormed, VotesChecked, Owing, HasVotedClose;
    var s' := Step(s, a);
    NextIdIsFree(s);
    OwersAreNoWaits(s);
    if w in s'.requests && s'.requests[w].pc.Waiting? { VotesQuiet(s, s', w, kind); } else { NoWaiter(s', w, kind); }
  }

  lemma NoWaiter(s: State, w: RequestId, kind: VoteKind)
    requires w in s.requests ==> !s.requests[w].pc.Waiting?
    ensures VotesChecked(s, w, kind)
  {
  }

  lemma StepConflicts(s: State, a: Action)
    requires WellFormed(s) && ConflictsGone(s)
    ensures ConflictsGone(Step(s, a))
  {
    hide Advance;
    if a.Run? && a.id in s.requests { assert RequestOk(s, a.id); }
  }

  lemma {:induction false} AlwaysConflictsGone(run: seq<Action>)
    ensures ConflictsGone(Exec(INIT, run))
  {
    if run != [] {
      RunKeeps(INIT, run[..|run| - 1]);
      AlwaysConflictsGone(run[..|run| - 1]);
      StepConflicts(Exec(INIT, run[..|run| - 1]), run[|run| - 1]);
    }
  }

  lemma StepVotes(s: State, a: Action, w: RequestId, kind: VoteKind)
    requires WellFormed(s) && VotesChecked(s, w, kind) && ConflictsGone(s) && AllHome(s) && !StepTakes(s, a, w, kind)
    ensures VotesChecked(Step(s, a), w, kind)
  {
    hide Step, VotesChecked, WellFormed, AllHome, ConflictsGone, StepTakes;
    if !a.Run? {
      QuietVotes(s, a, w, kind);
    } else if a.id in s.requests {
      RunVotes(s, a.id, a.tick, w, kind);
    } else {
      NoSuchRequest(s, a);
    }
  }

  lemma NoSuchRequest(s: State, a: Action)
    requires a.Run? && a.id !in s.requests
    ensures Step(s, a) == s
  {
  }

  /** Since the waiter checked for votes of this kind, its own has been taken on behalf of a send to another room. */
  ghost predicate TakenSince(run: seq<Action>, w: RequestId, kind: VoteKind) {
    exists n :: 0 <= n < |run| && TakenAt(run, n, w, kind)
  }

  ghost predicate TakenAt(run: seq<Action>, n: nat, w: RequestId, kind: VoteKind)
    requires n < |run|
  {
    && StepTakes(Exec(INIT, run[..n]), run[n], w, kind)
    && forall m :: n <= m <= |run| ==> SawAt(Exec(INIT, run[..m]), w, kind).Some?
  }

  /** In every run: every waiter past its check is covered in the sense above, unless its own vote was so taken. */
  lemma {:induction false} NoLostVote(run: seq<Action>, w: RequestId, kind: VoteKind)
    requires !TakenSince(run, w, kind)
    ensures VotesChecked(Exec(INIT, run), w, kind)
  {
    hide Exec, Step, Checked, StepTakes, WellFormed, AllHome, ConflictsGone, TakenSince;
    if run == [] {
      NobodyYet(w, kind);
    } else {
      var shorter, a := run[..|run| - 1], run[|run| - 1];
      var s := Exec(INIT, shorter);
      assert run == shorter + [a];
      ExecSplits(run, shorter, a);
      if SawAt(s, w, kind).Some? && SawAt(Exec(INIT, run), w, kind).Some? {
        TakenBefore(run, shorter, a, w, kind);
        NoLostVote(shorter, w, kind);
      }
      if SawAt(Exec(INIT, run), w, kind).Some? {
        InitIsWellFormed();
        RunKeeps(INIT, shorter);
        AlwaysHome(shorter);
        AlwaysConflictsGone(shorter);
        if SawAt(s, w, kind).Some? {
          StepVotes(s, a, w, kind);
        } else {
          JustChecked(s, a, w, kind);
        }
      }
    }
  }

  lemma NobodyYet(w: RequestId, kind: VoteKind)
    ensures SawAt(Exec(INIT, []), w, kind).None?
  {
  }

  /** What is taken before the waiter checks does not matter: it comes to be past its check by a step of its own. */
  lemma JustChecked(s: State, a: Action, w: RequestId, kind: VoteKind)
    requires WellFormed(s) && ConflictsGone(s) && AllHome(s)
    requires SawAt(s, w, kind).None? && SawAt(Step(s, a), w, kind).Some?
    ensures VotesChecked(Step(s, a), w, kind)
  {
    hide Advance, WellFormed, ConflictsGone, AllHome, Checked, Step;
    assert a.Run? && a.id == w by {
      if !(a.Run? && a.id == w) { OthersLeaveUnchecked(s, a, w, kind); }
    }
    StepVotes(s, a, w, kind);
  }

  lemma OthersLeaveUnchecked(s: State, a: Action, w: RequestId, kind: VoteKind)
    requires SawAt(s, w, kind).None? && !(a.Run? && a.id == w)
    ensures SawAt(Step(s, a), w, kind).None?
  {
    hide Advance;
  }

  lemma TakenLonger(run: seq<Action>, shorter: seq<Action>, a: Action, n: nat, w: RequestId, kind: VoteKind)
    requires run == shorter + [a] && n < |shorter| && TakenAt(shorter, n, w, kind)
    requires SawAt(Exec(INIT, run), w, kind).Some?
    ensures TakenAt(run, n, w, kind)
  {
    hide Exec, StepTakes;
    ExecSplits(run, shorter, a);
    assert run[..n] == shorter[..n];
    forall m | n <= m <= |run| ensures SawAt(Exec(INIT, run[..m]), w, kind).Some? {
      assert if m <= |shorter| then run[..m] == shorter[..m] else run[..m] == run;
    }
  }

  lemma TakenBefore(run: seq<Action>, shorter: seq<Action>, a: Action, w: RequestId, kind: VoteKind)
    requires run == shorter + [a] && !TakenSince(run, w, kind)
    requires SawAt(Exec(INIT, run), w, kind).Some? && SawAt(Exec(INIT, shorter), w, kind).Some?
    ensures !TakenSince(shorter, w, kind) && !StepTakes(Exec(INIT, shorter), a, w, kind)
  {
    hide Exec, StepTakes, SawAt;
    ExecSplits(run, shorter, a);
    forall n | 0 <= n < |shorter| ensures !TakenAt(shorter, n, w, kind) {
      assert !TakenAt(run, n, w, kind);
      if TakenAt(shorter, n, w, kind) { TakenLonger(run, shorter, a, n, w, kind); }
    }
    assert !TakenAt(run, |shorter|, w, kind);
    assert run[..|shorter|] == shorter;
    assert forall m :: |shorter| <= m <= |run| ==> run[..m] == (if m == |shorter| then shorter else run);
  }

  // ---- what a sleeper can miss ----

  /** Nobody in the room is between its vote or its insert and its ring. */
  ghost predicate NobodyRings(s: State, room: RoomId) {
    forall id :: id in s.requests && s.requests[id].call.room == room ==>
      !Owing(s.requests[id].pc) && !HasVotedClose(s.requests[id])
  }

  ghost predicate LiveVoter(d: Db, room: RoomId, me: Handle, now: Time, h: Handle) {
    VotesTo(d, room, me, h) && d.participants[h].wantsClose.Some? && IsLive(d.participants[h], now)
  }

  /** The vote was there when the waiter checked, but the voter was dark; the voter has polled since. */
  ghost predicate CameBack(saw: Sighting, h: Handle, p: Participant) {
    && h in saw.roster && saw.roster[h].wantsClose == p.wantsClose
    && !IsLive(saw.roster[h], saw.at) && saw.roster[h].lastPollAt < p.lastPollAt
  }

  /** The vote is that of a close that answered a conflict, and when that close counted the waiter was dark. */
  ghost predicate DarkWhenCounted(s: State, me: Handle, v: Vote) {
    && v.castBy in s.unannounced
    && var c := s.unannounced[v.castBy];
    me in c.roster && !IsLive(c.roster[me], c.at)
  }

  ghost predicate Late(s: State, saw: Sighting, room: RoomId, me: Handle, h: Handle)
    requires h in s.db.participants && s.db.participants[h].wantsClose.Some?
  {
    var p := s.db.participants[h];
    CameBack(saw, h, p) || DarkWhenCounted(s, me, p.wantsClose.value) || CameFromOutside(s, room, p.wantsClose.value)
  }

  /** A sleeper: parked, no ping pending, its row its own. */
  ghost predicate Sleeps(s: State, w: RequestId) {
    Silent(s, w) && s.requests[w].pc.stage.Parked? && OwnRow(s.db, s.requests[w].pc)
  }

  /** The sleeper should yield, and no ring is to come. */
  ghost predicate Misses(s: State, w: RequestId, now: Time) {
    && Sleeps(s, w) && NobodyRings(s, s.requests[w].call.room) && s.requests[w].pc.stage.sawClose.at <= now
    && CloseProposed(RosterOf(s.db, s.requests[w].call.room), s.requests[w].pc.me, now)
  }

  lemma LiveVotersAreLate(run: seq<Action>, w: RequestId, now: Time, h: Handle)
    requires !TakenSince(run, w, CloseVote) && Sleeps(Exec(INIT, run), w)
    requires var s := Exec(INIT, run);
      && s.requests[w].pc.stage.sawClose.at <= now && NobodyRings(s, s.requests[w].call.room)
      && !StillVotes(s.db, s.requests[w].pc.me) && LiveVoter(s.db, s.requests[w].call.room, s.requests[w].pc.me, now, h)
    ensures var s := Exec(INIT, run);
      Late(s, s.requests[w].pc.stage.sawClose, s.requests[w].call.room, s.requests[w].pc.me, h)
  {
    NoLostVote(run, w, CloseVote);
    var s := Exec(INIT, run);
    var pc, room := s.requests[w].pc, s.requests[w].call.room;
    var me, saw, p := pc.me, pc.stage.sawClose, s.db.participants[h];
    var v := p.wantsClose.value;
    if v.castBy in s.unannounced { ConflictHadEveryone(run, v.castBy); }
    hide Exec, TakenSince;
    assert CloseChecked(s, w, saw) && !RingOwed(s, room);
    assert CloseVoteKnown(s, w, saw, h, v);
    if h in saw.roster && saw.roster[h].wantsClose == Some(v) {
      assert IsLive(saw.roster[h], saw.at) ==> CloseProposed(saw.roster, me, saw.at);
    }
  }

  /** In every run: while nobody in the room has a ring still to give, what a sleeper should yield on, but was not told,
      is exactly this. It has no close vote, and there is a live voter who was dark at its check and came back, or whose
      close was turned away while the sleeper itself was dark, or whose vote came from a request to another room; or the
      sleeper had a vote itself, which a send to another room has taken since. */
  lemma LostCloseProposals(run: seq<Action>, w: RequestId, now: Time)
    requires Sleeps(Exec(INIT, run), w)
    requires var s := Exec(INIT, run);
      s.requests[w].pc.stage.sawClose.at <= now && NobodyRings(s, s.requests[w].call.room)
    ensures var s := Exec(INIT, run);
      var me, room, saw := s.requests[w].pc.me, s.requests[w].call.room, s.requests[w].pc.stage.sawClose;
      CloseProposed(RosterOf(s.db, room), me, now)
      <==> !StillVotes(s.db, me) && exists h ::
             LiveVoter(s.db, room, me, now, h) && (Late(s, saw, room, me, h) || TakenSince(run, w, CloseVote))
  {
    var s := Exec(INIT, run);
    var me, room, saw := s.requests[w].pc.me, s.requests[w].call.room, s.requests[w].pc.stage.sawClose;
    AlwaysHome(run);
    assert RowHome(s.db, s.requests[w]);
    if !StillVotes(s.db, me) && !TakenSince(run, w, CloseVote) {
      forall h | LiveVoter(s.db, room, me, now, h) ensures Late(s, saw, room, me, h) {
        LiveVotersAreLate(run, w, now, h);
      }
    }
    hide Exec, TakenSince, Late, Silent, RowHome;
    var roster := RosterOf(s.db, room);
    assert forall h :: LiveVoter(s.db, room, me, now, h) <==>
      h in roster && h != me && roster[h].wantsClose.Some? && IsLive(roster[h], now);
  }

  ghost predicate LiveExtendVoter(d: Db, room: RoomId, me: Handle, now: Time, h: Handle) {
    VotesTo(d, room, me, h) && d.participants[h].wantsExtend.Some? && IsLive(d.participants[h], now)
  }

  ghost predicate CameBackToExtend(saw: Sighting, h: Handle, p: Participant) {
    && h in saw.roster && saw.roster[h].wantsExtend == p.wantsExtend
    && !IsLive(saw.roster[h], saw.at) && saw.roster[h].lastPollAt < p.lastPollAt
  }

  /** An extend always rings, so a sleeper misses no vote of one that was turned away. */
  ghost predicate LateToExtend(s: State, saw: Sighting, room: RoomId, h: Handle)
    requires h in s.db.participants && s.db.participants[h].wantsExtend.Some?
  {
    var p := s.db.participants[h];
    CameBackToExtend(saw, h, p) || CameFromOutside(s, room, p.wantsExtend.value)
  }

  lemma LiveExtendVotersAreLate(run: seq<Action>, w: RequestId, now: Time, h: Handle)
    requires !TakenSince(run, w, ExtendVote) && Sleeps(Exec(INIT, run), w)
    requires var s := Exec(INIT, run);
      && s.requests[w].pc.stage.sawExtend.at <= now && NobodyRings(s, s.requests[w].call.room)
      && !StillVotesExtend(s.db, s.requests[w].pc.me)
      && LiveExtendVoter(s.db, s.requests[w].call.room, s.requests[w].pc.me, now, h)
    ensures var s := Exec(INIT, run); LateToExtend(s, s.requests[w].pc.stage.sawExtend, s.requests[w].call.room, h)
  {
    NoLostVote(run, w, ExtendVote);
    var s := Exec(INIT, run);
    var pc, room := s.requests[w].pc, s.requests[w].call.room;
    var me, saw, v := pc.me, pc.stage.sawExtend, s.db.participants[h].wantsExtend.value;
    hide Exec, TakenSince;
    assert ExtendChecked(s, w, saw) && !RingOwed(s, room);
    assert ExtendVoteKnown(s, room, saw, h, v);
    assert !ExtendVoteDue(s, v.castBy, room);
    if h in saw.roster && saw.roster[h].wantsExtend == Some(v) {
      assert IsLive(saw.roster[h], saw.at) ==> ExtendProposed(saw.roster, me, saw.at);
    }
  }

  /** The same for extend votes, but for closes that were turned away. */
  lemma LostExtendProposals(run: seq<Action>, w: RequestId, now: Time)
    requires Sleeps(Exec(INIT, run), w)
    requires var s := Exec(INIT, run);
      s.requests[w].pc.stage.sawExtend.at <= now && NobodyRings(s, s.requests[w].call.room)
    ensures var s := Exec(INIT, run);
      var me, room, saw := s.requests[w].pc.me, s.requests[w].call.room, s.requests[w].pc.stage.sawExtend;
      ExtendProposed(RosterOf(s.db, room), me, now)
      <==> !StillVotesExtend(s.db, me) && exists h ::
             LiveExtendVoter(s.db, room, me, now, h)
                 && (LateToExtend(s, saw, room, h) || TakenSince(run, w, ExtendVote))
  {
    var s := Exec(INIT, run);
    var me, room, saw := s.requests[w].pc.me, s.requests[w].call.room, s.requests[w].pc.stage.sawExtend;
    AlwaysHome(run);
    assert RowHome(s.db, s.requests[w]);
    if !StillVotesExtend(s.db, me) && !TakenSince(run, w, ExtendVote) {
      forall h | LiveExtendVoter(s.db, room, me, now, h) ensures LateToExtend(s, saw, room, h) {
        LiveExtendVotersAreLate(run, w, now, h);
      }
    }
    hide Exec, TakenSince, LateToExtend, Silent, RowHome;
    var roster := RosterOf(s.db, room);
    assert forall h :: LiveExtendVoter(s.db, room, me, now, h) <==>
      h in roster && h != me && roster[h].wantsExtend.Some? && IsLive(roster[h], now);
  }
}
