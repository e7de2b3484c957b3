/** The hard cap grows by one step for each agreement and each agreement is made of votes cast for it alone. */
module ExtendVotes {
  import opened Wrappers
  import opened Lifecycle
  import opened Tables
  import opened Protocol
  import opened Evolution
  import opened Effects

  /** Enough of the participants polled since the cutoff had a standing extend vote. */
  ghost predicate Agreed(quorum: CloseQuorum, b: Bump) {
    |ExtendVotersSince(b.roster, b.cutoff)| >= quorum.Needed(|PolledSince(b.roster, b.cutoff)|)
  }

  ghost predicate StampedWithin(roster: Roster, from: nat, below: nat) {
    forall h :: h in roster && roster[h].wantsExtend.Some? ==> from <= roster[h].wantsExtend.value.stamp < below
  }

  function LastStamp(bumps: seq<Bump>): nat {
    if bumps == [] then 0 else bumps[|bumps| - 1].stamp
  }

  /** All votes a raise counted were cast after the raise before it. */
  ghost predicate FreshVotes(bumps: seq<Bump>) {
    forall i :: 0 <= i < |bumps| ==>
      && LastStamp(bumps[..i]) <= bumps[i].stamp
      && StampedWithin(bumps[i].roster, LastStamp(bumps[..i]), bumps[i].stamp)
  }

  /** The cap is the opening cap plus one step per raise; each raise had its quorum, out of votes cast after the raise
      before it. */
  ghost predicate Ledger(room: Room, casts: nat) {
    && room.hardCap == room.openedCap + EXTEND_STEP * |room.bumps|
    && LastStamp(room.bumps) <= casts
    && (forall i :: 0 <= i < |room.bumps| ==> Agreed(room.quorum, room.bumps[i]))
    && FreshVotes(room.bumps)
  }

  /** No standing vote is older than the last raise of its room. */
  ghost predicate VotesUnspent(d: Db) {
    forall h :: h in d.participants && d.participants[h].wantsExtend.Some? ==>
      && d.participants[h].wantsExtend.value.stamp < d.casts
      && (d.participants[h].room in d.rooms ==>
            LastStamp(d.rooms[d.participants[h].room].bumps) <= d.participants[h].wantsExtend.value.stamp)
  }

  ghost predicate LedgersOk(d: Db) {
    && (forall r :: r in d.rooms ==> Ledger(d.rooms[r], d.casts))
    && VotesUnspent(d)
  }

  // ---- the transaction ----

  lemma RaiseLedger(room: Room, casts: nat, b: Bump)
    requires Ledger(room, casts) && Agreed(room.quorum, b) && LastStamp(room.bumps) <= b.stamp <= casts
    requires StampedWithin(b.roster, LastStamp(room.bumps), b.stamp)
    ensures Ledger(room.(hardCap := room.hardCap + EXTEND_STEP, bumps := room.bumps + [b]), casts)
  {
    hide Agreed, StampedWithin;
    var bumps := room.bumps + [b];
    forall i | 0 <= i < |bumps|
      ensures Agreed(room.quorum, bumps[i]) && LastStamp(bumps[..i]) <= bumps[i].stamp
      ensures StampedWithin(bumps[i].roster, LastStamp(bumps[..i]), bumps[i].stamp)
    {
      assert bumps[..i] == room.bumps[..i];
      assert room.bumps[..|room.bumps|] == room.bumps;
    }
  }

  lemma VoteUnspent(d: Db, h: Handle, at: Time, voter: RequestId)
    requires LedgersOk(d)
    ensures LedgersOk(CastExtendVote(d, h, at, voter))
  {
    hide Agreed, StampedWithin;
    var d' := CastExtendVote(d, h, at, voter);
    if h in d.participants && d.participants[h].room in d.rooms {
      assert Ledger(d.rooms[d.participants[h].room], d.casts);
    }
  }

  lemma RaisedUnspent(d: Db, room: RoomId, b: Bump)
    requires VotesUnspent(d) && room in d.rooms
    ensures VotesUnspent(ClearExtendVotes(RaiseCap(d, room, b), room))
  {
  }

  /** Raising the cap and clearing the room's votes, once the votes are enough. */
  lemma RaisedLedgers(d: Db, room: RoomId, b: Bump)
    requires LedgersOk(d) && room in d.rooms && Agreed(d.rooms[room].quorum, b)
    requires b.roster == RosterOf(d, room) && b.stamp == d.casts
    ensures LedgersOk(ClearExtendVotes(RaiseCap(d, room, b), room))
  {
    var d' := ClearExtendVotes(RaiseCap(d, room, b), room);
    RaisedUnspent(d, room, b);
    assert StampedWithin(b.roster, LastStamp(d.rooms[room].bumps), b.stamp);
    RaiseLedger(d.rooms[room], d.casts, b);
    assert d'.rooms == RaiseCap(d, room, b).rooms && d'.casts == d.casts;
    hide Agreed, Ledger, StampedWithin, VotesUnspent, ClearExtendVotes;
    forall k | k in d'.rooms ensures Ledger(d'.rooms[k], d'.casts) {
      if k != room { assert d'.rooms[k] == d.rooms[k] && Ledger(d.rooms[k], d.casts); }
    }
  }

  lemma ExtendLedger(d: Db, room: RoomId, voter: Handle, now: Time, cutoff: Time, quorum: CloseQuorum,
                     request: RequestId)
    requires LedgersOk(d) && room in d.rooms && quorum == d.rooms[room].quorum
    ensures LedgersOk(TryExtend(d, room, voter, now, cutoff, quorum, request).0)
  {
    var voted := CastExtendVote(d, voter, now, request);
    VoteUnspent(d, voter, now, request);
    var b := Bump(RosterOf(voted, room), cutoff, voted.casts);
    assert voted.rooms == d.rooms;
    if Agreed(quorum, b) { RaisedLedgers(voted, room, b); }
    hide LedgersOk, RosterOf, ClearExtendVotes;
  }

  // ---- every other step ----

  ghost predicate CapsKept(d: Db, d': Db) {
    && d'.rooms.Keys == d.rooms.Keys && d.casts <= d'.casts
    && forall k :: k in d.rooms ==>
         && d'.rooms[k].hardCap == d.rooms[k].hardCap && d'.rooms[k].openedCap == d.rooms[k].openedCap
         && d'.rooms[k].bumps == d.rooms[k].bumps && d'.rooms[k].quorum == d.rooms[k].quorum
  }

  lemma UpdateCaps(d: Db, room: RoomId, from: RoomState, to: RoomState, now: Time, cause: Cause, mover: RequestId)
    ensures CapsKept(d, UpdateRoomState(d, room, from, to, now, cause, mover).0)
  {
  }

  lemma SendCaps(d: Db, id: RequestId, call: Call, room: Room, me: Handle, step: SendStep, t: Tick)
    requires call.op.Send?
    ensures CapsKept(d, SendNext(d, id, call, room, me, step, t).0)
  {
    if step.Revive? { UpdateCaps(d, call.room, room.state, Active, step.now, Routine, id); }
  }

  lemma CloseCaps(d: Db, id: RequestId, call: Call, room: Room, me: Handle, step: CloseStep)
    ensures CapsKept(d, CloseNext(d, id, call, room, me, step).0)
  {
    if step.SwapClosed? { UpdateCaps(d, call.room, room.state, step.to, step.now, step.cause, id); }
  }

  lemma AdvanceCaps(d: Db, id: RequestId, r: Request, pinged: bool, t: Tick)
    requires Fits(r.call, r.pc) && SnapshotOk(d, r)
    ensures var d' := Advance(d, id, r, pinged, t).0;
      if r.pc.Extending? && r.pc.extend.VoteAndCount?
      then d' == TryExtend(d, r.call.room, r.pc.me, t.now, t.now - GHOST_AFTER, r.pc.room.quorum, id).0
      else CapsKept(d, d')
  {
    if Quiet(r.pc) { AdvanceQuiet(d, id, r, pinged, t); }
    hide TryExtend, SendNext, CloseNext, WaitNext, WaiterNext, JoinNext, LoadStep, Found;
    match r.pc
    case Sending(room, me, step) => SendCaps(d, id, r.call, room, me, step, t);
    case Closing(room, me, step) => CloseCaps(d, id, r.call, room, me, step);
    case _ =>
  }

  lemma KeptLedgers(d: Db, d': Db)
    requires LedgersOk(d) && CapsKept(d, d')
    requires forall h :: h in d'.participants && d'.participants[h].wantsExtend.Some? ==>
      && h in d.participants && d'.participants[h].wantsExtend == d.participants[h].wantsExtend
      && d'.participants[h].room == d.participants[h].room
    ensures LedgersOk(d')
  {
    hide Agreed, StampedWithin;
  }

  lemma ExtendVotesKept(d: Db, id: RequestId, r: Request, pinged: bool, t: Tick)
    requires Fits(r.call, r.pc) && !(r.pc.Extending? && r.pc.extend.VoteAndCount?)
    ensures var d' := Advance(d, id, r, pinged, t).0;
      forall h :: h in d'.participants && d'.participants[h].wantsExtend.Some? ==>
        && h in d.participants && d'.participants[h].wantsExtend == d.participants[h].wantsExtend
        && d'.participants[h].room == d.participants[h].room
  {
    AdvanceRows(d, id, r, pinged, t);
    var d' := Advance(d, id, r, pinged, t).0;
    hide Advance;
    forall h | h in d'.participants && d'.participants[h].wantsExtend.Some?
      ensures h in d.participants && d'.participants[h].wantsExtend == d.participants[h].wantsExtend
      ensures h in d.participants && d'.participants[h].room == d.participants[h].room
    {
      assert RowKept(d, id, r, t, h, d'.participants[h]);
    }
  }

  lemma AdvanceLedger(d: Db, id: RequestId, r: Request, pinged: bool, t: Tick)
    requires Fits(r.call, r.pc) && SnapshotOk(d, r) && LedgersOk(d)
    ensures LedgersOk(Advance(d, id, r, pinged, t).0)
  {
    var d' := Advance(d, id, r, pinged, t).0;
    AdvanceCaps(d, id, r, pinged, t);
    hide Advance, TryExtend, LedgersOk, CapsKept;
    if r.pc.Extending? && r.pc.extend.VoteAndCount? {
      ExtendLedger(d, r.call.room, r.pc.me, t.now, t.now - GHOST_AFTER, r.pc.room.quorum, id);
    } else {
      ExtendVotesKept(d, id, r, pinged, t);
      KeptLedgers(d, d');
    }
  }

  lemma OpenLedger(d: Db, id: RoomId, room: Room)
    requires LedgersOk(d) && room.bumps == [] && room.hardCap == room.openedCap
    ensures LedgersOk(InsertRoom(d, id, room).0)
  {
    hide Agreed, StampedWithin;
  }

  lemma StepLedger(s: State, a: Action)
    requires WellFormed(s) && LedgersOk(s.db)
    ensures LedgersOk(Step(s, a).db)
  {
    hide Advance, LedgersOk;
    match a
    case Run(id, t) =>
      if id in s.requests {
        assert RequestOk(s, id);
        AdvanceLedger(s.db, id, s.requests[id], id in s.pings, t);
      }
    case OpenRoom(room, hardCap, softCap, now) => OpenLedger(s.db, room, NewRoom(hardCap, softCap, now));
    case _ =>
  }

  /** In every run, for every room: the hard cap is the opening cap plus twenty for each Extended outcome, every raise
      had the quorum of live participants, and all votes it counted were cast after the raise before. */
  lemma {:induction false} CapGrowsByAgreement(run: seq<Action>)
    ensures LedgersOk(Exec(INIT, run).db)
  {
    if run != [] {
      RunKeeps(INIT, run[..|run| - 1]);
      CapGrowsByAgreement(run[..|run| - 1]);
      StepLedger(Exec(INIT, run[..|run| - 1]), run[|run| - 1]);
    }
  }

  lemma {:induction false} StampsRise(bumps: seq<Bump>, i: nat, j: nat)
    requires FreshVotes(bumps) && i <= j < |bumps|
    ensures bumps[i].stamp <= bumps[j].stamp
  {
    if i < j {
      StampsRise(bumps, i, j - 1);
      assert LastStamp(bumps[..j]) == bumps[j - 1].stamp;
    }
  }

  /** The n-th raise counted this vote. */
  predicate Spent(bumps: seq<Bump>, n: nat, h: Handle, v: Vote) {
    n < |bumps| && h in bumps[n].roster && bumps[n].roster[h].wantsExtend == Some(v)
  }

  /** No vote is spent twice: what two raises of one room counted are different votes, by whomever. */
  lemma VotesSpentOnce(bumps: seq<Bump>, i: nat, j: nat, g: Handle, h: Handle, v: Vote, w: Vote)
    requires FreshVotes(bumps) && i < j && Spent(bumps, i, g, v) && Spent(bumps, j, h, w)
    ensures v.stamp < w.stamp
  {
    StampsRise(bumps, i, j - 1);
    assert LastStamp(bumps[..j]) == bumps[j - 1].stamp;
  }
}
