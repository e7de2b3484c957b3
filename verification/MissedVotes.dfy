/** Two runs in which a sleeping long-poll is not told of a standing close vote, although no request strays from its
    room. Each shows one of the ways the exact condition of `LostCloseProposals` names. */
module MissedVotes {
  import opened Wrappers
  import opened Lifecycle
  import opened Tables
  import opened Protocol
  import opened Evolution
  import opened Claims
  import opened Wakeup
  import opened VoteWakeup
  import opened StrayVotes
  import opened Unpruned
  import opened Scenario
  import opened Gathering

  // ---- the voter came back ----

  ghost function Proposed(): Db {
    Voted(Three(), 3, HandleFor("b"), 0)
  }

  lemma CountsTooFew()
    ensures |CloseVoters(RosterOf(Proposed(), ROOM), 0)| == 1 && |Live(RosterOf(Proposed(), ROOM), 0)| == 3
    ensures Proposed() == Voted(Three(), 3, HandleFor("b"), 0)
  {
    hide HandleFor, Three;
    Rows();
    var roster := RosterOf(Proposed(), ROOM);
    assert CloseVoters(roster, 0) == {HandleFor("b")};
    assert Live(roster, 0) == {HandleFor("a"), HandleFor("b"), HandleFor("c")};
  }

  /** One of three proposes to close, is counted as too few, and rings nobody, as nobody waits yet. */
  lemma ProposalPends() returns (run: seq<Action>, s: State)
    ensures At(run, s) && NoPrune(run) && Idles(s, Proposed()) && |s.calls| == 4
  {
    hide At, NoPrune, Fresh, Three, HandleFor, Proposed, Knows, Voted, RosterOf, CloseVoters, Live;
    Gathered();
    Rows();
    CountsTooFew();
    run, s := ThreeJoin();
    run, s := ProposesInVain(run, s, ROOM, "b", 0);
  }

  /** The three are in the room, which is active and without a message. */
  ghost predicate Meeting(d: Db) {
    && Knows(d, ROOM, "a") && Knows(d, ROOM, "b") && Knows(d, ROOM, "c")
    && d.rooms == map[ROOM := NewRoom(20, 4, 0)] && d.messages == []
    && d.participants.Keys == {HandleFor("a"), HandleFor("b"), HandleFor("c")}
  }

  lemma StillMeeting(d: Db, d': Db)
    requires Meeting(d) && SameRows(d, d') && d'.rooms == d.rooms && d'.messages == d.messages
    ensures Meeting(d')
  {
    hide HandleFor, Knows, SameRows;
    StillKnown(d, d', ROOM, "a");
    StillKnown(d, d', ROOM, "b");
    StillKnown(d, d', ROOM, "c");
    assert SameRows(d, d') ==> d'.participants.Keys == d.participants.Keys by { KeysOf(d, d'); }
  }

  lemma KeysOf(d: Db, d': Db)
    ensures SameRows(d, d') ==> d'.participants.Keys == d.participants.Keys
  {
  }

  lemma MeetingStarts()
    ensures Meeting(Proposed())
  {
    Gathered();
    Rows();
    hide HandleFor, Three, Knows;
    StillMeeting(Three(), Proposed());
  }

  lemma PollKeepsMeeting(d: Db, name: string)
    requires Meeting(d)
    ensures Meeting(TouchLastPoll(d, HandleFor(name), LATER))
  {
    hide HandleFor, Knows;
    StillMeeting(d, TouchLastPoll(d, HandleFor(name), LATER));
  }

  ghost function Poll(d: Db, name: string): Db {
    TouchLastPoll(d, HandleFor(name), LATER)
  }

  lemma PolledRows()
    ensures var d := Poll(Proposed(), "c");
      Row(d, "a", 0, 0, false) && Row(d, "b", 1, 0, true) && Row(d, "c", 2, LATER, false)
    ensures var d := Poll(Poll(Proposed(), "c"), "a");
      Row(d, "a", 0, LATER, false) && Row(d, "b", 1, 0, true) && Row(d, "c", 2, LATER, false)
    ensures var d := Poll(Poll(Poll(Proposed(), "c"), "a"), "b");
      Row(d, "a", 0, LATER, false) && Row(d, "b", 1, LATER, true) && Row(d, "c", 2, LATER, false)
  {
    Rows();
    hide HandleFor, Three;
  }

  /** The proposal is there, but `b` is dark: nothing to yield on. */
  lemma NothingToSee(d: Db)
    requires Meeting(d) && Row(d, "a", 0, LATER, false) && Row(d, "b", 1, 0, true) && Row(d, "c", 2, LATER, false)
    ensures NothingAfoot(d, ROOM, HandleFor("a"), LATER)
  {
    Rows();
    hide HandleFor, Two, Three, Knows;
    assert HandleFor("c") in RosterOf(d, ROOM);
  }

  lemma NowThereIs(d: Db)
    requires Meeting(d) && Row(d, "a", 0, LATER, false) && Row(d, "b", 1, LATER, true)
    ensures CloseProposed(RosterOf(d, ROOM), HandleFor("a"), LATER)
  {
    Rows();
    hide HandleFor, Two, Three, Knows;
    assert HandleFor("b") in RosterOf(d, ROOM);
  }

  ghost function Arriving(name: string, row: nat): Pc {
    Entering(NewRoom(20, 4, 0), HandleFor(name), row, CheckCounterpart)
  }

  /** `c` polls, `a` falls asleep, and `b` polls. */
  lemma TheyPoll() returns (run: seq<Action>, s: State)
    ensures At(run, s) && NoPrune(run)
    ensures var d := Poll(Poll(Proposed(), "c"), "a");
      && s.db == Poll(d, "b") && s.pings == {} && s.unannounced == map[]
      && s.requests == map[4 := Request(WaitOf("c"), Arriving("c", 2)),
          5 := Request(WaitOf("a"), Asleep(d, "a", 0, LATER)), 6 := Request(WaitOf("b"), Arriving("b", 1))]
  {
    var d0 := Proposed();
    var d1 := Poll(d0, "c");
    var d2 := Poll(d1, "a");
    MeetingStarts();
    PollKeepsMeeting(d0, "c");
    PollKeepsMeeting(d1, "a");
    PolledRows();
    ProposedRows();
    NothingToSee(d2);
    run, s := ProposalPends();
    var s0 := s;
    hide At, NoPrune, Fresh, HandleFor, Proposed, Knows, NothingAfoot, RosterOf;
    run := Polls(run, s0, ROOM, "c", LATER);
    var s1 := With(s0, WaitOf("c"), d1, Arriving("c", 2));
    WithStaysFresh(s0, WaitOf("c"), d1, Arriving("c", 2));
    run := FallsAsleep(run, s1, ROOM, "a", LATER);
    var s2 := With(s1, WaitOf("a"), d2, Asleep(d2, "a", 0, LATER));
    WithStaysFresh(s1, WaitOf("a"), d2, Asleep(d2, "a", 0, LATER));
    run := Polls(run, s2, ROOM, "b", LATER);
    s := With(s2, WaitOf("b"), Poll(d2, "b"), Arriving("b", 1));
  }

  lemma ProposedRows()
    ensures Row(Proposed(), "a", 0, 0, false) && Row(Proposed(), "b", 1, 0, true) && Row(Proposed(), "c", 2, 0, false)
  {
    Rows();
    hide HandleFor, Three;
  }

  lemma HereIsWhatIsMissed(s: State, d: Db)
    requires s.db == Poll(d, "b") && s.pings == {}
    requires s.requests == map[4 := Request(WaitOf("c"), Arriving("c", 2)),
        5 := Request(WaitOf("a"), Asleep(d, "a", 0, LATER)), 6 := Request(WaitOf("b"), Arriving("b", 1))]
    requires Row(s.db, "a", 0, LATER, false) && CloseProposed(RosterOf(s.db, ROOM), HandleFor("a"), LATER)
    ensures Misses(s, 5, LATER)
  {
    hide RosterOf, HandleFor, CloseProposed, Poll;
  }

  lemma ThenThereIs()
    ensures var d := Poll(Poll(Poll(Proposed(), "c"), "a"), "b");
      Row(d, "a", 0, LATER, false) && CloseProposed(RosterOf(d, ROOM), HandleFor("a"), LATER)
  {
    MeetingStarts();
    PollKeepsMeeting(Proposed(), "c");
    PollKeepsMeeting(Poll(Proposed(), "c"), "a");
    PollKeepsMeeting(Poll(Poll(Proposed(), "c"), "a"), "b");
    PolledRows();
    hide Proposed, Meeting, Row, HandleFor, RosterOf, CloseProposed, TouchLastPoll;
    NowThereIs(Poll(Poll(Poll(Proposed(), "c"), "a"), "b"));
  }

  /** A voter was dark when the sleeper checked its vote, and polls again: the vote counts once more and nobody is told.
      No close of this run was turned away. */
  lemma ReturningVoterIsMissed() returns (run: seq<Action>, w: RequestId)
    ensures Misses(Exec(INIT, run), w, LATER) && Exec(INIT, run).unannounced == map[]
    ensures NoneCastAway(run) && !TakenSince(run, w, CloseVote)
  {
    var s;
    run, s := TheyPoll();
    w := 5;
    NobodyStrays(run);
    ThenThereIs();
    hide NoPrune, NoneCastAway, TakenSince, Misses, CloseProposed, Row, Arriving, Asleep, WaitOf, Poll, Exec;
    HereIsWhatIsMissed(s, Poll(Poll(Proposed(), "c"), "a"));
  }

  // ---- the sleeper was dark ----

  ghost function VotedLate(): Db {
    Voted(Resting(), 4, HandleFor("b"), LATER)
  }

  ghost function Idled(): Db {
    UpdateRoomState(VotedLate(), ROOM, Active, Idle, LATER, Routine, 3).0
  }

  lemma LateRows()
    ensures Row(Resting(), "a", 0, 0, false) && Row(Resting(), "b", 1, 0, false)
    ensures Row(VotedLate(), "a", 0, 0, false) && Row(VotedLate(), "b", 1, LATER, true)
    ensures Resting().participants.Keys == VotedLate().participants.Keys == {HandleFor("a"), HandleFor("b")}
    ensures Resting().rooms == VotedLate().rooms == map[ROOM := NewRoom(20, 4, 0)] && Resting().messages == []
    ensures Knows(Resting(), ROOM, "a") && Knows(Resting(), ROOM, "b")
    ensures HandleFor("a") != HandleFor("b")
  {
    RestingRows();
    hide HandleFor, Resting, Knows;
  }

  const SWEEP := Call(Sweep, ROOM, "")
  const CLOSE := Call(Close(false), ROOM, "b")

  /** The sweep finds everybody dark and is about to mark the room idle. */
  lemma SweepSteps()
    ensures var r, t, d := NewRoom(20, 4, 0), TickAt(LATER), Resting();
      && LoadStep(d, SWEEP, t) == Goto(Sweeping(r, ReadPolls(LATER)))
      && Advance(d, 3, Request(SWEEP, Sweeping(r, ReadPolls(LATER))), false, t)
          == (d, Goto(Sweeping(r, SwapSwept(Idle, LATER))))
      && Advance(VotedLate(), 3, Request(SWEEP, Sweeping(r, SwapSwept(Idle, LATER))), false, t) == (Idled(), Finish)
  {
    LateRows();
    hide HandleFor, Two, Knows, Resting, VotedLate;
    var roster := RosterOf(Resting(), ROOM);
    assert HandleFor("b") in roster && forall h :: h in roster ==> roster[h].lastPollAt == 0;
    assert (set h | h in roster :: roster[h].lastPollAt) == {0};
  }

  ghost function Counted(): Cause {
    Consensus(Sighting(RosterOf(VotedLate(), ROOM), LATER))
  }

  /** The close counts one live participant and one vote, finds the room moved, and answers a conflict. */
  lemma CloseSteps()
    ensures var r, t, me := NewRoom(20, 4, 0), TickAt(LATER), HandleFor("b");
      && Advance(VotedLate(), 4, Request(CLOSE, Closing(r, me, CountVotes(LATER))), false, t)
         == (VotedLate(), Goto(Closing(r, me, SwapClosed(Closed, LATER, Counted()))))
      && Advance(Idled(), 4, Request(CLOSE, Closing(r, me, SwapClosed(Closed, LATER, Counted()))), false, t)
         == (Idled(), Goto(Closing(r, me, Recheck(Counted()))))
      && Advance(Idled(), 4, Request(CLOSE, Closing(r, me, Recheck(Counted()))), false, t)
         == (Idled(), Conflict(Counted().sighting))
  {
    LateRows();
    hide HandleFor, Two, Knows, Resting, VotedLate;
    var roster := RosterOf(VotedLate(), ROOM);
    assert CloseVoters(roster, LATER) == {HandleFor("b")} == Live(roster, LATER);
  }

  /** The state in which the sweep is about to move the room and the close about to count. */
  lemma BothAtWork() returns (run: seq<Action>, s0: State)
    ensures Fresh(s0) && |s0.calls| == 3 && s0.pings == {} && s0.unannounced == map[]
    ensures s0.requests == map[2 := Request(WaitOf("a"), Asleep(Resting(), "a", 0, 0))]
    ensures NoPrune(run)
    ensures var s1 := With(s0, SWEEP, Resting(), Sweeping(NewRoom(20, 4, 0), SwapSwept(Idle, LATER)));
      Fresh(s1) && At(run, With(s1, CLOSE, VotedLate(), Closing(NewRoom(20, 4, 0), HandleFor("b"), CountVotes(LATER))))
  {
    hide At, NoPrune, Fresh, HandleFor, Resting, Knows, Advance, LoadStep, Asleep, TickAt, Voted;
    var r, t, d := NewRoom(20, 4, 0), TickAt(LATER), Resting();
    LateRows();
    SweepSteps();
    LoadAdvance(d, 3, SWEEP, t);
    run, s0 := ASleeps();
    var s1 := With(s0, SWEEP, d, Sweeping(r, SwapSwept(Idle, LATER)));
    WithStaysFresh(s0, SWEEP, d, Sweeping(r, SwapSwept(Idle, LATER)));
    run := Begins(run, s0, SWEEP);
    run := Goes(run, s0, SWEEP, d, LoadRoom, t, d, Sweeping(r, ReadPolls(LATER)));
    run := Goes(run, s0, SWEEP, d, Sweeping(r, ReadPolls(LATER)), t, d, Sweeping(r, SwapSwept(Idle, LATER)));
    run := Votes(run, s1, ROOM, "b", LATER);
  }

  /** When the sweep has finished, it is as if it had not been there, but for its name and what it did to the room. */
  lemma SweepLeaves(s0: State, pc: Pc)
    requires |s0.calls| == 3 && 3 !in s0.requests
    ensures var s1 := With(s0, SWEEP, Resting(), Sweeping(NewRoom(20, 4, 0), SwapSwept(Idle, LATER)));
      Apply(With(s1, CLOSE, VotedLate(), pc), 3, Idled(), Finish, TickAt(LATER))
      == With(s0.(calls := s0.calls + [SWEEP]), CLOSE, Idled(), pc)
  {
    hide Resting, VotedLate, Idled, NewRoom;
    var swept := Request(SWEEP, Sweeping(NewRoom(20, 4, 0), SwapSwept(Idle, LATER)));
    assert s0.requests[3 := swept][4 := Request(CLOSE, pc)] - {3} == s0.requests[4 := Request(CLOSE, pc)];
  }

  lemma SweepFinishes(run: seq<Action>, s0: State, pc: Pc) returns (run': seq<Action>)
    requires |s0.calls| == 3 && 3 !in s0.requests && Fresh(s0)
    requires var s1 := With(s0, SWEEP, Resting(), Sweeping(NewRoom(20, 4, 0), SwapSwept(Idle, LATER)));
      At(run, With(s1, CLOSE, VotedLate(), pc))
    ensures At(run', With(s0.(calls := s0.calls + [SWEEP]), CLOSE, Idled(), pc))
    ensures NoPrune(run) ==> NoPrune(run')
  {
    SweepSteps();
    SweepLeaves(s0, pc);
    hide At, NoPrune, HandleFor, Resting, VotedLate, Idled, Advance, TickAt, Apply, NewRoom;
    var s1 := With(s0, SWEEP, Resting(), Sweeping(NewRoom(20, 4, 0), SwapSwept(Idle, LATER)));
    run' := Moves(run, With(s1, CLOSE, VotedLate(), pc), 3, TickAt(LATER), Idled(), Finish);
  }

  lemma CloseTurnedAway() returns (run: seq<Action>, s: State)
    ensures At(run, s) && NoPrune(run) && s.db == Idled() && s.pings == {}
    ensures s.requests == map[2 := Request(WaitOf("a"), Asleep(Resting(), "a", 0, 0))]
    ensures s.unannounced == map[4 := Counted().sighting]
  {
    var r, t, me := NewRoom(20, 4, 0), TickAt(LATER), HandleFor("b");
    var swap := Closing(r, me, SwapClosed(Closed, LATER, Counted()));
    var recheck := Closing(r, me, Recheck(Counted()));
    CloseSteps();
    var s0;
    run, s0 := BothAtWork();
    var s1, s2 := With(s0, SWEEP, Resting(), Sweeping(r, SwapSwept(Idle, LATER))), s0.(calls := s0.calls + [SWEEP]);
    assert Fresh(s2) && |s1.calls| == |s2.calls| == 4;
    hide At, NoPrune, HandleFor, Resting, VotedLate, Idled, Counted, Advance, Asleep, TickAt, NewRoom, With, Fresh;
    run := Goes(run, s1, CLOSE, VotedLate(), Closing(r, me, CountVotes(LATER)), t, VotedLate(), swap);
    run := SweepFinishes(run, s0, swap);
    run := Goes(run, s2, CLOSE, Idled(), swap, t, Idled(), recheck);
    run, s := Ends(run, s2, CLOSE, Idled(), recheck, t, Idled(), Conflict(Counted().sighting));
  }

  lemma NowThereIsOne()
    ensures Row(Idled(), "a", 0, 0, false) && CloseProposed(RosterOf(Idled(), ROOM), HandleFor("a"), LATER)
  {
    LateRows();
    hide HandleFor, Resting, VotedLate, Knows;
    assert HandleFor("b") in RosterOf(Idled(), ROOM);
  }

  /** A close meets its quorum while the sleeper is dark, loses the room to the sweep and is turned away: its vote
      stands and nobody is told. When the sleeper checked, nobody had voted. */
  lemma TurnedAwayVoteIsMissed() returns (run: seq<Action>, w: RequestId)
    ensures Misses(Exec(INIT, run), w, LATER) && NoneCastAway(run) && !TakenSince(run, w, CloseVote)
    ensures var saw := Exec(INIT, run).requests[w].pc.stage.sawClose.roster;
      forall h :: h in saw ==> saw[h].wantsClose.None?
  {
    hide NoPrune, NoneCastAway, TakenSince, CloseProposed, HandleFor, Resting, Idled, Exec, RosterOf, Counted;
    var s;
    run, s := CloseTurnedAway();
    w := 2;
    NobodyStrays(run);
    NowThereIsOne();
    NoVotesSeen();
  }

  lemma NoVotesSeen()
    ensures var saw := RosterOf(Resting(), ROOM); forall h :: h in saw ==> saw[h].wantsClose.None?
  {
    LateRows();
    hide HandleFor, Resting;
  }
}
