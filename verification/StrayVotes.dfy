/** When a vote can stand on a row of another room than its request's, where no ring of that request is heard. */
module StrayVotes {
  import opened Wrappers
  import opened Lifecycle
  import opened Tables
  import opened Protocol
  import opened Evolution
  import opened Effects
  import opened VoteWakeup

  /** The step casts a vote on a row of another room: the voter's handle was pruned and minted again there. */
  ghost predicate CastStrays(d: Db, r: Request) {
    && HandleOf(r.pc).Some? && HandleOf(r.pc).value in d.participants
    && d.participants[HandleOf(r.pc).value].room != r.call.room
    && ((r.pc.Closing? && r.pc.close.CastVote?) || (r.pc.Extending? && r.pc.extend.VoteAndCount?))
  }

  ghost predicate StepCastStrays(s: State, a: Action) {
    a.Run? && a.id in s.requests && CastStrays(s.db, s.requests[a.id])
  }

  ghost predicate VoteHome(calls: seq<Call>, room: RoomId, v: Option<Vote>) {
    v.Some? ==> v.value.castBy < |calls| && calls[v.value.castBy].room == room
  }

  /** Every standing vote was cast by a request to the room it stands in. */
  ghost predicate VotesHome(s: State) {
    forall h :: h in s.db.participants ==>
      && VoteHome(s.calls, s.db.participants[h].room, s.db.participants[h].wantsClose)
      && VoteHome(s.calls, s.db.participants[h].room, s.db.participants[h].wantsExtend)
  }

  lemma RowVotesHome(calls: seq<Call>, d: Db, id: RequestId, r: Request, t: Tick, h: Handle, p': Participant)
    requires RowKept(d, id, r, t, h, p') && !CastStrays(d, r) && id < |calls| && calls[id] == r.call
    requires h in d.participants ==>
      && VoteHome(calls, d.participants[h].room, d.participants[h].wantsClose)
      && VoteHome(calls, d.participants[h].room, d.participants[h].wantsExtend)
    ensures VoteHome(calls, p'.room, p'.wantsClose) && VoteHome(calls, p'.room, p'.wantsExtend)
  {
  }

  lemma StepStores(s: State, id: RequestId, t: Tick)
    requires id in s.requests && Fits(s.requests[id].call, s.requests[id].pc)
    ensures var s' := Step(s, Run(id, t));
      s'.calls == s.calls && s'.db == Advance(s.db, id, s.requests[id], id in s.pings, t).0
  {
    hide Advance;
  }

  lemma CastsAtHome(s: State, id: RequestId, t: Tick)
    requires WellFormed(s) && VotesHome(s) && id in s.requests && !CastStrays(s.db, s.requests[id])
    ensures VotesHome(Step(s, Run(id, t)))
  {
    assert RequestOk(s, id);
    var r := s.requests[id];
    assert Fits(r.call, r.pc) && s.calls[id] == r.call && id < |s.calls|;
    hide Advance, Step, WellFormed, RequestOk, Fits, RowKept, CastStrays, VoteHome;
    StepStores(s, id, t);
    AdvanceRows(s.db, id, r, id in s.pings, t);
    var s' := Step(s, Run(id, t));
    forall h | h in s'.db.participants
      ensures VoteHome(s.calls, s'.db.participants[h].room, s'.db.participants[h].wantsClose)
      ensures VoteHome(s.calls, s'.db.participants[h].room, s'.db.participants[h].wantsExtend)
    {
      RowVotesHome(s.calls, s.db, id, r, t, h, s'.db.participants[h]);
    }
  }

  lemma CastAway(s: State, id: RequestId, t: Tick)
    requires WellFormed(s) && id in s.requests && CastStrays(s.db, s.requests[id])
    ensures !VotesHome(Step(s, Run(id, t)))
  {
    assert RequestOk(s, id);
    var r, s' := s.requests[id], Step(s, Run(id, t));
    var me := HandleOf(r.pc).value;
    assert s'.calls == s.calls && s'.db == Advance(s.db, id, r, id in s.pings, t).0;
    hide Step, WellFormed, Lawful, RosterOf;
    var p' := s'.db.participants[me];
    assert p'.room == s.db.participants[me].room;
    assert (p'.wantsClose.Some? && p'.wantsClose.value.castBy == id)
        || (p'.wantsExtend.Some? && p'.wantsExtend.value.castBy == id);
    hide Advance;
  }

  /** From votes at home a step leads to votes at home if and only if it does not cast one away. */
  lemma StepVotesHome(s: State, a: Action)
    requires WellFormed(s) && VotesHome(s)
    ensures VotesHome(Step(s, a)) <==> !StepCastStrays(s, a)
  {
    hide Advance, CastStrays;
    match a
    case Run(id, t) =>
      if id in s.requests {
        if CastStrays(s.db, s.requests[id]) { CastAway(s, id, t); } else { CastsAtHome(s, id, t); }
      }
    case _ => assert Step(s, a).db.participants == s.db.participants && s.calls <= Step(s, a).calls;
  }

  ghost predicate HomeThroughout(run: seq<Action>) {
    forall n :: 0 <= n <= |run| ==> VotesHome(Exec(INIT, run[..n]))
  }

  ghost predicate NoneCastAway(run: seq<Action>) {
    forall n :: 0 <= n < |run| ==> !StepCastStrays(Exec(INIT, run[..n]), run[n])
  }

  /** In every run: at all its moments every standing vote belongs to a request of its own room, whose ring the waiters
      there hear, if and only if no step of the run casts a vote on a row of another room. */
  lemma {:induction false} VotesStayHome(run: seq<Action>)
    ensures HomeThroughout(run) <==> NoneCastAway(run)
  {
    hide Exec, Step, StepCastStrays, VotesHome, NoneCastAway, HomeThroughout, WellFormed;
    if run == [] {
      NothingYet();
    } else {
      var shorter, a := run[..|run| - 1], run[|run| - 1];
      VotesStayHome(shorter);
      InitIsWellFormed();
      RunKeeps(INIT, shorter);
      var s := Exec(INIT, shorter);
      if VotesHome(s) { StepVotesHome(s, a); }
      assert run == shorter + [a];
      LastOf(run, shorter, a);
    }
  }

  lemma NothingYet()
    ensures HomeThroughout([]) && NoneCastAway([])
  {
  }

  lemma LastOf(run: seq<Action>, shorter: seq<Action>, a: Action)
    requires run == shorter + [a]
    ensures HomeThroughout(run) <==> HomeThroughout(shorter) && VotesHome(Step(Exec(INIT, shorter), a))
    ensures NoneCastAway(run) <==> NoneCastAway(shorter) && !StepCastStrays(Exec(INIT, shorter), a)
    ensures HomeThroughout(shorter) ==> VotesHome(Exec(INIT, shorter))
  {
    hide Exec, Step, StepCastStrays, VotesHome;
    ExecSplits(run, shorter, a);
  }

  /** Then no vote standing in a room came from a request to another one. */
  lemma NoneFromOutside(run: seq<Action>)
    requires NoneCastAway(run)
    ensures var s := Exec(INIT, run);
      forall h :: h in s.db.participants ==>
        var p := s.db.participants[h];
        && (p.wantsClose.Some? ==> !CameFromOutside(s, p.room, p.wantsClose.value))
        && (p.wantsExtend.Some? ==> !CameFromOutside(s, p.room, p.wantsExtend.value))
  {
    hide Exec, NoneCastAway;
    VotesStayHome(run);
    assert run[..|run|] == run;
    assert VotesHome(Exec(INIT, run));
  }
}
