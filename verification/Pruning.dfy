/** Deleting the rows of ghosts changes no count and no decision of a consensus. */
module Pruning {
  import opened Wrappers
  import opened Lifecycle
  import opened Tables
  import opened Protocol

  /** Equal but for the history of raises, which keeps the rosters it has seen. */
  ghost predicate SameRoom(r: Room, r': Room) {
    r' == r.(bumps := r'.bumps)
  }

  /** The second database is the first without some rows that were ghosts at t. */
  ghost predicate Pruned(d: Db, d': Db, t: Time) {
    && d'.rooms.Keys == d.rooms.Keys && (forall r :: r in d.rooms ==> SameRoom(d.rooms[r], d'.rooms[r]))
    && d'.messages == d.messages && d'.casts == d.casts && d'.nextRow == d.nextRow
    && (forall h :: h in d'.participants ==> h in d.participants && d'.participants[h] == d.participants[h])
    && (forall h :: h in d.participants && h !in d'.participants ==> t - d.participants[h].lastPollAt > GHOST_AFTER)
  }

  /** What the prune statement deletes are ghosts by the reckoning of the votes. */
  lemma PruneLeavesTheLiving(d: Db, room: RoomId, t: Time)
    ensures Pruned(d, PruneStale(d, room, t - GHOST_AFTER), t)
  {
  }

  /** No such row was deleted. */
  predicate StillThere(d: Db, d': Db, me: Handle) {
    me in d.participants ==> me in d'.participants
  }

  /** From the prune on, the live, the voters, and what is proposed to whom are the same with and without the rows. */
  lemma CountsAgree(d: Db, d': Db, room: RoomId, t: Time, now: Time)
    requires Pruned(d, d', t) && now >= t
    ensures var roster, roster', cutoff := RosterOf(d, room), RosterOf(d', room), now - GHOST_AFTER;
      && Live(roster', now) == Live(roster, now) && CloseVoters(roster', now) == CloseVoters(roster, now)
      && PolledSince(roster', cutoff) == PolledSince(roster, cutoff) == Live(roster, now)
      && ExtendVotersSince(roster', cutoff) == ExtendVotersSince(roster, cutoff)
  {
    var roster, roster' := RosterOf(d, room), RosterOf(d', room);
    assert forall h :: h in roster' ==> h in roster && roster'[h] == roster[h];
    assert forall h :: h in roster && h !in roster' ==> !IsLive(roster[h], now);
  }

  lemma ProposalsAgree(d: Db, d': Db, room: RoomId, t: Time, now: Time, me: Handle)
    requires Pruned(d, d', t) && now >= t && StillThere(d, d', me)
    ensures var roster, roster' := RosterOf(d, room), RosterOf(d', room);
      && (CloseProposed(roster', me, now) <==> CloseProposed(roster, me, now))
      && (ExtendProposed(roster', me, now) <==> ExtendProposed(roster, me, now))
  {
    var roster, roster' := RosterOf(d, room), RosterOf(d', room);
    assert forall h :: h in roster' ==> h in roster && roster'[h] == roster[h];
    assert forall h :: h in roster && h !in roster' ==> !IsLive(roster[h], now);
  }

  /** A reason without the roster it was read from. */
  function BlindCause(cause: Cause): Cause {
    match cause
    case Consensus(c) => Consensus(Sighting(map[], c.at))
    case _ => cause
  }

  function BlindStep(step: CloseStep): CloseStep {
    match step
    case SwapClosed(after, now, cause) => SwapClosed(after, now, BlindCause(cause))
    case Recheck(cause) => Recheck(BlindCause(cause))
    case _ => step
  }

  /** What comes next, without the rosters. */
  function Blind(next: Next): Next {
    match next
    case Goto(Closing(room, me, step)) => Goto(Closing(room, me, BlindStep(step)))
    case Conflict(c) => Conflict(Sighting(map[], c.at))
    case _ => next
  }

  predicate ClockFrom(step: CloseStep, t: Time) {
    step.CountVotes? ==> step.now >= t
  }

  lemma RowWritesAgree(d: Db, d': Db, t: Time, room: RoomId, me: Handle, now: Time, id: RequestId)
    requires Pruned(d, d', t) && StillThere(d, d', me)
    ensures Pruned(TouchLastPoll(d, me, now), TouchLastPoll(d', me, now), t)
    ensures Pruned(CastCloseVote(d, me, now, id), CastCloseVote(d', me, now, id), t)
    ensures Pruned(ClearCloseVotes(d, room), ClearCloseVotes(d', room), t)
  {
  }

  lemma CloseTurnsAgree(d: Db, d': Db, t: Time, id: RequestId, call: Call, room: Room, me: Handle, step: CloseStep,
                        step': CloseStep)
    requires Pruned(d, d', t) && ClockFrom(step, t) && BlindStep(step) == BlindStep(step')
    ensures Blind(CloseNext(d, id, call, room, me, step).1) == Blind(CloseNext(d', id, call, room, me, step').1)
  {
    if step.CountVotes? { CountsAgree(d, d', call.room, t, step.now); }
    hide CloseVoters, Live, RosterOf;
  }

  lemma CloseWritesAgree(d: Db, d': Db, t: Time, id: RequestId, call: Call, room: Room, me: Handle, step: CloseStep,
                         step': CloseStep)
    requires Pruned(d, d', t) && StillThere(d, d', me) && BlindStep(step) == BlindStep(step')
    ensures var e, e' := CloseNext(d, id, call, room, me, step).0, CloseNext(d', id, call, room, me, step').0;
      Pruned(e, e', t) && StillThere(e, e', me)
  {
    hide CloseVoters, Live, RosterOf, StartClosing;
    match step
    case TouchCloser(now) => RowWritesAgree(d, d', t, call.room, me, now, id);
    case CastVote(now) => RowWritesAgree(d, d', t, call.room, me, now, id);
    case ClearVotes => RowWritesAgree(d, d', t, call.room, me, 0, id);
    case _ =>
  }

  /** A close of somebody still there goes the same way in both, step by step, and leaves them so related. */
  lemma ClosesAgree(d: Db, d': Db, t: Time, id: RequestId, call: Call, room: Room, me: Handle, step: CloseStep,
                    step': CloseStep)
    requires Pruned(d, d', t) && StillThere(d, d', me) && ClockFrom(step, t) && BlindStep(step) == BlindStep(step')
    ensures var (e, next) := CloseNext(d, id, call, room, me, step);
      var (e', next') := CloseNext(d', id, call, room, me, step');
      Blind(next) == Blind(next') && Pruned(e, e', t) && StillThere(e, e', me)
  {
    CloseTurnsAgree(d, d', t, id, call, room, me, step, step');
    CloseWritesAgree(d, d', t, id, call, room, me, step, step');
    hide *;
  }

  /** And so does an extend vote, with the same outcome. */
  lemma ExtendsAgree(d: Db, d': Db, t: Time, room: RoomId, me: Handle, now: Time, quorum: CloseQuorum, id: RequestId)
    requires Pruned(d, d', t) && StillThere(d, d', me) && now >= t && room in d.rooms
    ensures var (e, outcome) := TryExtend(d, room, me, now, now - GHOST_AFTER, quorum, id);
      var (e', outcome') := TryExtend(d', room, me, now, now - GHOST_AFTER, quorum, id);
      outcome == outcome' && Pruned(e, e', t) && StillThere(e, e', me)
  {
    var voted, voted' := CastExtendVote(d, me, now, id), CastExtendVote(d', me, now, id);
    assert Pruned(voted, voted', t);
    CountsAgree(voted, voted', room, t, now);
  }

  // ---- whatever happens next ----

  /** The statements that write to the tables. */
  datatype Statement =
    | Touch(me: Handle, now: Time)
    | Vote(me: Handle, now: Time, id: RequestId)
    | Retract(me: Handle)
    | RetractExtend(me: Handle)
    | Claim(me: Handle, seen: nat, next: nat)
    | Extend(room: RoomId, me: Handle, now: Time, id: RequestId)
    | Insert(me: Handle, row: Participant)
    | ClearVotes(room: RoomId)
    | Prune(room: RoomId, now: Time)
    | Revise(room: RoomId, before: RoomState, after: RoomState, now: Time, cause: Cause, id: RequestId)
    | Use(room: RoomId, now: Time)
    | Write(m: Message)
    | WriteCapped(m: Message, cap: int)
    | Open(room: RoomId, newRoom: Room)

  ghost function ExtendIn(d: Db, room: RoomId, me: Handle, now: Time, id: RequestId): Db {
    if room in d.rooms then TryExtend(d, room, me, now, now - GHOST_AFTER, d.rooms[room].quorum, id).0 else d
  }

  ghost function Perform(d: Db, s: Statement): Db {
    match s
    case Touch(me, now) => TouchLastPoll(d, me, now)
    case Vote(me, now, id) => CastCloseVote(d, me, now, id)
    case Retract(me) => RetractCloseVote(d, me)
    case RetractExtend(me) => ClearExtendVote(d, me)
    case Claim(me, seen, next) => AdvanceCursor(d, me, seen, next).0
    case Extend(room, me, now, id) => ExtendIn(d, room, me, now, id)
    case Insert(me, row) => InsertParticipant(d, me, row).0
    case ClearVotes(room) => ClearCloseVotes(d, room)
    case Prune(room, now) => PruneStale(d, room, now - GHOST_AFTER)
    case Revise(room, before, after, now, cause, id) => UpdateRoomState(d, room, before, after, now, cause, id).0
    case Use(room, now) => TouchLastActivity(d, room, now)
    case Write(m) => Append(d, m)
    case WriteCapped(m, cap) => AppendCapped(d, m, cap).0
    case Open(room, newRoom) => InsertRoom(d, room, newRoom).0
  }

  ghost function PerformAll(d: Db, run: seq<Statement>): Db {
    if run == [] then d else Perform(PerformAll(d, run[..|run| - 1]), run[|run| - 1])
  }

  /** The statement is not on behalf of a deleted participant, nor brings one back, nor counts with a clock before t. */
  ghost predicate Spares(d: Db, d': Db, t: Time, s: Statement) {
    match s
    case Insert(me, row) =>
      StillThere(d, d', me) && (ByInstance(d', row.room, row.instance).None?
                                ==> ByInstance(d, row.room, row.instance).None?)
    case Extend(_, me, now, _) => StillThere(d, d', me) && now >= t
    case Touch(me, _) => StillThere(d, d', me)
    case Vote(me, _, _) => StillThere(d, d', me)
    case Claim(me, _, _) => StillThere(d, d', me)
    case _ => true
  }

  lemma InsertAgrees(d: Db, d': Db, t: Time, me: Handle, row: Participant)
    requires Pruned(d, d', t) && Spares(d, d', t, Insert(me, row))
    ensures Pruned(InsertParticipant(d, me, row).0, InsertParticipant(d', me, row).0, t)
  {
    assert ByInstance(d', row.room, row.instance).Some? ==>
        HasInstance(d, row.room, row.instance, ByInstance(d', row.room, row.instance).value);
  }

  lemma RetractsAgree(d: Db, d': Db, t: Time, me: Handle)
    requires Pruned(d, d', t)
    ensures Pruned(RetractCloseVote(d, me), RetractCloseVote(d', me), t)
    ensures Pruned(ClearExtendVote(d, me), ClearExtendVote(d', me), t)
  {
  }

  lemma ClaimsAgree(d: Db, d': Db, t: Time, me: Handle, seen: nat, next: nat)
    requires Pruned(d, d', t) && StillThere(d, d', me)
    ensures Pruned(AdvanceCursor(d, me, seen, next).0, AdvanceCursor(d', me, seen, next).0, t)
  {
  }

  lemma PrunesAgree(d: Db, d': Db, t: Time, room: RoomId, cutoff: Time)
    requires Pruned(d, d', t)
    ensures Pruned(PruneStale(d, room, cutoff), PruneStale(d', room, cutoff), t)
  {
  }

  lemma UseAgrees(d: Db, d': Db, t: Time, room: RoomId, now: Time)
    requires Pruned(d, d', t)
    ensures Pruned(TouchLastActivity(d, room, now), TouchLastActivity(d', room, now), t)
  {
  }

  lemma AppendsAgree(d: Db, d': Db, t: Time, m: Message, cap: int)
    requires Pruned(d, d', t)
    ensures Pruned(Append(d, m), Append(d', m), t) && Pruned(AppendCapped(d, m, cap).0, AppendCapped(d', m, cap).0, t)
  {
  }

  lemma OpenAgrees(d: Db, d': Db, t: Time, room: RoomId, newRoom: Room)
    requires Pruned(d, d', t)
    ensures Pruned(InsertRoom(d, room, newRoom).0, InsertRoom(d', room, newRoom).0, t)
  {
  }

  lemma RevisionAgrees(d: Db, d': Db, t: Time, room: RoomId, before: RoomState, after: RoomState, now: Time,
                       cause: Cause, id: RequestId)
    requires Pruned(d, d', t)
    ensures Pruned(UpdateRoomState(d, room, before, after, now, cause, id).0,
                   UpdateRoomState(d', room, before, after, now, cause, id).0, t)
  {
  }

  lemma ExtendStatementAgrees(d: Db, d': Db, t: Time, room: RoomId, me: Handle, now: Time, id: RequestId)
    requires Pruned(d, d', t) && StillThere(d, d', me) && now >= t
    ensures Pruned(ExtendIn(d, room, me, now, id), ExtendIn(d', room, me, now, id), t)
  {
    hide TryExtend;
    if room in d.rooms {
      var quorum := d.rooms[room].quorum;
      assert room in d'.rooms && d'.rooms[room].quorum == quorum;
      ExtendsAgree(d, d', t, room, me, now, quorum, id);
    }
    hide Pruned;
  }

  lemma StatementAgrees(d: Db, d': Db, t: Time, s: Statement)
    requires Pruned(d, d', t) && Spares(d, d', t, s)
    ensures Pruned(Perform(d, s), Perform(d', s), t)
  {
    hide Pruned, ExtendIn;
    if s.Extend? {
      ExtendStatementAgrees(d, d', t, s.room, s.me, s.now, s.id);
    } else if s.Insert? {
      InsertAgrees(d, d', t, s.me, s.row);
    } else {
      hide InsertParticipant, TouchLastPoll, CastCloseVote, RetractCloseVote, ClearExtendVote, AdvanceCursor,
          ClearCloseVotes, PruneStale, UpdateRoomState, TouchLastActivity, Append, AppendCapped, InsertRoom;
      match s
      case Touch(me, now) => RowWritesAgree(d, d', t, "", me, now, 0);
      case Vote(me, now, id) => RowWritesAgree(d, d', t, "", me, now, id);
      case Retract(me) => RetractsAgree(d, d', t, me);
      case RetractExtend(me) => RetractsAgree(d, d', t, me);
      case Claim(me, seen, next) => ClaimsAgree(d, d', t, me, seen, next);
      case ClearVotes(room) => ClearsAgree(d, d', t, room);
      case Prune(room, now) => PrunesAgree(d, d', t, room, now - GHOST_AFTER);
      case Revise(room, before, after, now, cause, id) => RevisionAgrees(d, d', t, room, before, after, now, cause, id);
      case Use(room, now) => UseAgrees(d, d', t, room, now);
      case Write(m) => AppendsAgree(d, d', t, m, 0);
      case WriteCapped(m, cap) => AppendsAgree(d, d', t, m, cap);
      case Open(room, newRoom) => OpenAgrees(d, d', t, room, newRoom);
    }
  }

  lemma ClearsAgree(d: Db, d': Db, t: Time, room: RoomId)
    requires Pruned(d, d', t)
    ensures Pruned(ClearCloseVotes(d, room), ClearCloseVotes(d', room), t)
  {
  }

  ghost predicate AllSpare(d: Db, d': Db, t: Time, run: seq<Statement>) {
    forall i :: 0 <= i < |run| ==> Spares(PerformAll(d, run[..i]), PerformAll(d', run[..i]), t, run[i])
  }

  lemma {:induction false} RunsAgree(d: Db, d': Db, t: Time, run: seq<Statement>)
    requires Pruned(d, d', t) && AllSpare(d, d', t, run)
    ensures Pruned(PerformAll(d, run), PerformAll(d', run), t)
  {
    if run != [] {
      var shorter, s := run[..|run| - 1], run[|run| - 1];
      assert forall i :: 0 <= i < |shorter| ==> shorter[..i] == run[..i];
      RunsAgree(d, d', t, shorter);
      StatementAgrees(PerformAll(d, shorter), PerformAll(d', shorter), t, s);
    }
  }

  /** Prune a room at t, and let any statements follow, as long as none is on behalf of a pruned participant or brings
      one back: at every later reading of the clock the live, the voters and hence the votes needed are what they would
      have been without the prune, for a close and for an extend alike. */
  lemma PruningIsInvisible(d: Db, room: RoomId, t: Time, run: seq<Statement>, elsewhere: RoomId, quorum: CloseQuorum,
                           now: Time)
    requires AllSpare(d, PruneStale(d, room, t - GHOST_AFTER), t, run) && now >= t
    ensures
      var kept := RosterOf(PerformAll(d, run), elsewhere);
      var pruned := RosterOf(PerformAll(PruneStale(d, room, t - GHOST_AFTER), run), elsewhere);
      var cutoff := now - GHOST_AFTER;
      && |CloseVoters(pruned, now)| == |CloseVoters(kept, now)|
      && quorum.Needed(|Live(pruned, now)|) == quorum.Needed(|Live(kept, now)|)
      && |ExtendVotersSince(pruned, cutoff)| == |ExtendVotersSince(kept, cutoff)|
      && quorum.Needed(|PolledSince(pruned, cutoff)|) == quorum.Needed(|PolledSince(kept, cutoff)|)
  {
    var d' := PruneStale(d, room, t - GHOST_AFTER);
    PruneLeavesTheLiving(d, room, t);
    RunsAgree(d, d', t, run);
    CountsAgree(PerformAll(d, run), PerformAll(d', run), elsewhere, t, now);
  }
}
