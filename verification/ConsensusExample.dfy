/** A stretch as the convergence theorem speaks of, in a run from the start. The first participant votes to close;
    sixteen minutes later another joins, the first polls and so is live again, and the two others close at once, in
    turns. Both count the old vote before either has closed the room. */
module ConsensusExample {
  import opened Wrappers
  import opened Lifecycle
  import opened Tables
  import opened Protocol
  import opened Evolution
  import opened Consensus
  import opened PeacefulRuns
  import opened Scenario
  import opened Gathering

  ghost const STRETCH := Stretch(
    ROOM, {HandleFor("a"), HandleFor("b"), HandleFor("c")},
    map[HandleFor("a") := 2, HandleFor("b") := 5, HandleFor("c") := 6])

  function CloseOf(name: string): Call {
    Call(Close(false), ROOM, name)
  }

  function JoinOf(name: string): Call {
    Call(Join(name), ROOM, name)
  }

  /** All that is asked of the daemon. */
  ghost const CALLS :=
    [JoinOf("a"), JoinOf("b"), CloseOf("a"), JoinOf("c"), WaitOf("a"), CloseOf("b"), CloseOf("c")]

  lemma Apart()
    ensures HandleFor("a") != HandleFor("b") && HandleFor("a") != HandleFor("c") && HandleFor("b") != HandleFor("c")
    ensures STRETCH.last.Keys == STRETCH.present
  {
    Rows();
    hide HandleFor;
  }

  // ---- the tables ----

  /** `a` has voted at time 0. */
  ghost function OldVote(): Db {
    Voted(Two(), 2, HandleFor("a"), 0)
  }

  /** Later `c` joins, */
  ghost function Joined(): Db {
    WithRow(OldVote(), 3, ROOM, "c", LATER)
  }

  /** `a` polls, */
  ghost function Polled(): Db {
    TouchLastPoll(Joined(), HandleFor("a"), LATER)
  }

  /** `b` votes, */
  ghost function TwoVotes(): Db {
    Voted(Polled(), 5, HandleFor("b"), LATER)
  }

  /** and `c`. */
  ghost function ThreeVotes(): Db {
    Voted(TwoVotes(), 6, HandleFor("c"), LATER)
  }

  ghost predicate AllKnown(d: Db) {
    Knows(d, ROOM, "a") && Knows(d, ROOM, "b") && Knows(d, ROOM, "c")
  }

  lemma Names()
    ensures AllKnown(Joined()) && AllKnown(Polled()) && AllKnown(TwoVotes())
  {
    hide HandleFor, Knows, Unknown, Two, OldVote, WithRow, Voted, TouchLastPoll;
    NewcomerKnown();
    RowsAsBefore();
    Same(Joined(), Polled());
    Same(Polled(), TwoVotes());
  }

  lemma RowsAsBefore()
    ensures SameRows(Joined(), Polled()) && SameRows(Polled(), TwoVotes())
    ensures Joined().rooms == Polled().rooms == TwoVotes().rooms
  {
    hide HandleFor, Joined, TouchLastPoll, Voted, SameRows;
    WritesKeepRows(Joined(), 0, HandleFor("a"));
    WritesKeepRows(Polled(), 5, HandleFor("b"));
  }

  lemma WritesKeepRows(d: Db, id: RequestId, h: Handle)
    ensures SameRows(d, TouchLastPoll(d, h, LATER)) && TouchLastPoll(d, h, LATER).rooms == d.rooms
    ensures SameRows(d, Voted(d, id, h, LATER)) && Voted(d, id, h, LATER).rooms == d.rooms
  {
  }

  lemma NewcomerKnown()
    ensures AllKnown(Joined())
  {
    hide HandleFor, Knows, Unknown, Two, WithRow;
    Gathered();
    Same(Two(), OldVote());
    StillUnknown();
    OtherJoins(OldVote(), 3, ROOM, "c", LATER, ROOM, "a");
    OtherJoins(OldVote(), 3, ROOM, "c", LATER, ROOM, "b");
    KnownIsActive(OldVote(), ROOM, "a");
    NewlyKnown(OldVote(), 3, ROOM, "c", LATER);
  }

  lemma Same(d: Db, d': Db)
    requires SameRows(d, d') && d'.rooms == d.rooms
    ensures forall name :: Knows(d, ROOM, name) ==> Knows(d', ROOM, name)
  {
    hide Knows, SameRows;
    forall name | Knows(d, ROOM, name) ensures Knows(d', ROOM, name) { StillKnown(d, d', ROOM, name); }
  }

  lemma StillUnknown()
    ensures Unknown(OldVote(), ROOM, "c")
  {
    hide HandleFor, Two;
    Gathered();
    var d, d' := Two(), OldVote();
    assert forall g :: HasInstance(d', ROOM, "c", g) ==> HasInstance(d, ROOM, "c", g);
  }

  // ---- until `c` is about to vote ----

  /** The vote of `a` is not enough. */
  lemma CountsTooFew()
    ensures Two().rooms == map[ROOM := NewRoom(20, 4, 0)]
    ensures var roster := RosterOf(OldVote(), ROOM);
      |CloseVoters(roster, 0)| < NewRoom(20, 4, 0).quorum.Needed(|Live(roster, 0)|)
  {
    hide HandleFor, Two;
    Rows();
    var roster := RosterOf(OldVote(), ROOM);
    assert CloseVoters(roster, 0) == {HandleFor("a")};
    assert Live(roster, 0) == {HandleFor("a"), HandleFor("b")};
  }

  function AtStep(name: string, step: CloseStep): Pc {
    Closing(Room(Active, 20, 4, All, 0, 0, 0, 20, [], 0), HandleFor(name), step)
  }

  /** `a` votes in vain, and later `c` joins. */
  lemma AVotesAndCJoins() returns (pre: seq<Action>, run: seq<Action>, s: State)
    ensures Idles(Exec(INIT, pre), Two()) && |Exec(INIT, pre).calls| == 2 && pre <= run
    ensures At(run, s) && Idles(s, Joined()) && s.calls == CALLS[..4]
  {
    hide HandleFor, Two, Knows, Unknown, WithRow, Voted, NoPrune, RosterOf, CloseVoters, Live, Exec;
    var start;
    pre, start := TwoJoin();
    Gathered();
    CountsTooFew();
    StillUnknown();
    run, s := ProposesInVain(pre, start, ROOM, "a", 0);
    run, s := Joins(run, s, ROOM, "c", LATER);
  }

  /** The state once `a` has polled: its long-poll is at work. */
  ghost function Polling(s: State): State {
    With(s, WaitOf("a"), Polled(),
         Entering(NewRoom(20, 4, 0), HandleFor("a"), Joined().participants[HandleFor("a")].row, CheckCounterpart))
  }

  ghost function BVoted(s: State): State {
    With(Polling(s), CloseOf("b"), TwoVotes(), AtStep("b", CountVotes(LATER)))
  }

  /** `a` polls, `b` votes, and `c` asks to close. */
  lemma APollsAndBVotes(run: seq<Action>, s: State) returns (run': seq<Action>)
    requires At(run, s) && Idles(s, Joined()) && |s.calls| == 4
    ensures run <= run' && Fresh(BVoted(s))
    ensures At(run', With(BVoted(s), CloseOf("c"), TouchLastPoll(TwoVotes(), HandleFor("c"), LATER),
                          AtStep("c", CastVote(LATER))))
  {
    hide HandleFor, Joined, Knows, TouchLastPoll, Voted, NoPrune, At, Fresh;
    Names();
    JoinedRoom();
    RowsAsBefore();
    var r, row := NewRoom(20, 4, 0), Joined().participants[HandleFor("a")].row;
    run' := Polls(run, s, ROOM, "a", LATER);
    WithStaysFresh(s, WaitOf("a"), Polled(), Entering(r, HandleFor("a"), row, CheckCounterpart));
    run' := Votes(run', Polling(s), ROOM, "b", LATER);
    WithStaysFresh(Polling(s), CloseOf("b"), TwoVotes(), AtStep("b", CountVotes(LATER)));
    run' := AsksToClose(run', BVoted(s), ROOM, "c", LATER);
  }

  lemma JoinedRoom()
    ensures Joined().rooms == map[ROOM := NewRoom(20, 4, 0)] && HandleFor("a") in Joined().participants
  {
    hide HandleFor, Two;
    Rows();
  }

  // ---- two closers at once ----

  /** The run has come to this state, and from moment `m` on only those present were live at the counts. */
  ghost predicate Along(run: seq<Action>, m: nat, s: State) {
    At(run, s) && STRETCH.last.Keys == STRETCH.present && CountsGranted(STRETCH, run, m)
  }

  lemma GoesOn(run: seq<Action>, m: nat, s: State, a: Action) returns (run': seq<Action>)
    requires Along(run, m, s) && GrantedStep(STRETCH, s, a)
    ensures Along(run', m, Step(s, a)) && run' == run + [a]
  {
    hide Exec, Step, GrantedStep, HandleFor;
    run' := run + [a];
    ExecGrows(INIT, run, a);
    forall n | m <= n < |run'| ensures GrantedStep(STRETCH, Exec(INIT, run'[..n]), run'[n]) {
      assert run'[..n] == run[..n] && (n == |run| ==> run[..n] == run);
    }
  }

  /** The state while both close. */
  ghost function Closers(s: State, d: Db, pcB: Pc, pcC: Pc): State {
    s.(db := d, calls := s.calls + [CloseOf("b"), CloseOf("c")],
       requests := s.requests[5 := Request(CloseOf("b"), pcB)][6 := Request(CloseOf("c"), pcC)])
  }

  /** `c` votes. */
  lemma CVotes(run: seq<Action>, s: State) returns (run': seq<Action>)
    requires |s.calls| == 4 && Fresh(BVoted(s))
    requires At(run, With(BVoted(s), CloseOf("c"), TouchLastPoll(TwoVotes(), HandleFor("c"), LATER),
                          AtStep("c", CastVote(LATER))))
    ensures Along(run', |run|, Closers(Polling(s), ThreeVotes(), AtStep("b", CountVotes(LATER)),
                                       AtStep("c", CountVotes(LATER))))
    ensures run <= run' && !HasVoted(STRETCH, Exec(INIT, run), HandleFor("c"))
  {
    hide HandleFor, Advance, TwoVotes, ThreeVotes, TouchLastPoll, Exec, Polled, Joined;
    Apart();
    CastAdvance();
    var s1 := With(BVoted(s), CloseOf("c"), TouchLastPoll(TwoVotes(), HandleFor("c"), LATER),
                   AtStep("c", CastVote(LATER)));
    var s2 := With(BVoted(s), CloseOf("c"), ThreeVotes(), AtStep("c", CountVotes(LATER)));
    assert s1.requests[6].pc == AtStep("c", CastVote(LATER)) && 6 !in s1.pings;
    assert Step(s1, Run(6, TickAt(LATER))) == s2;
    run' := GoesOn(run, |run|, s1, Run(6, TickAt(LATER)));
  }

  lemma CastAdvance()
    ensures Advance(TouchLastPoll(TwoVotes(), HandleFor("c"), LATER), 6,
                    Request(CloseOf("c"), AtStep("c", CastVote(LATER))), false, TickAt(LATER))
         == (ThreeVotes(), Goto(AtStep("c", CountVotes(LATER))))
  {
    hide HandleFor, TwoVotes, TouchLastPoll, CastCloseVote;
  }

  /** A step may be a count only while everybody is live. */
  lemma TurnGranted(s: State, d: Db, pcB: Pc, pcC: Pc, id: RequestId)
    requires id == 5 || id == 6
    requires var pc := if id == 5 then pcB else pcC; AtCount(pc) ==> d == ThreeVotes() && pc.close.now == LATER
    ensures STRETCH.last.Keys == STRETCH.present
        && GrantedStep(STRETCH, Closers(s, d, pcB, pcC), Run(id, TickAt(LATER)))
  {
    hide HandleFor, ThreeVotes, HasVoted, OnlyPresentLive;
    Apart();
    AllLive();
  }

  lemma AllLive()
    ensures OnlyPresentLive(STRETCH, ThreeVotes(), LATER)
    ensures var roster := RosterOf(ThreeVotes(), ROOM); |CloseVoters(roster, LATER)| == |Live(roster, LATER)| == 3
    ensures ThreeVotes().rooms == map[ROOM := NewRoom(20, 4, 0)]
  {
    hide HandleFor, ThreeVotes;
    VotedRows();
    var roster, all := RosterOf(ThreeVotes(), ROOM), {HandleFor("a"), HandleFor("b"), HandleFor("c")};
    assert roster.Keys == all;
    assert Live(roster, LATER) == all == CloseVoters(roster, LATER);
    assert |all| == 3;
  }

  /** The rows the two closers count: all three polled late, and the vote of the first is the old one. */
  lemma VotedRows()
    ensures var d := ThreeVotes();
      && d.participants.Keys == {HandleFor("a"), HandleFor("b"), HandleFor("c")}
      && (forall h :: h in d.participants ==>
            d.participants[h].room == ROOM && d.participants[h].wantsClose.Some?
                && d.participants[h].lastPollAt == LATER)
      && d.participants[HandleFor("a")].wantsClose.value.at == 0
      && d.participants[HandleFor("c")].wantsClose.value.at == LATER
      && d.rooms == map[ROOM := NewRoom(20, 4, 0)]
    ensures HandleFor("a") != HandleFor("b") && HandleFor("a") != HandleFor("c") && HandleFor("b") != HandleFor("c")
  {
    hide HandleFor, Two;
    Rows();
  }

  lemma Turn(run: seq<Action>, m: nat, s: State, d: Db, pcB: Pc, pcC: Pc, id: RequestId, d': Db, pc': Pc)
    returns (run': seq<Action>)
    requires Along(run, m, Closers(s, d, pcB, pcC)) && (id == 5 || id == 6) && 5 !in s.pings && 6 !in s.pings
    requires var (call, pc) := if id == 5 then (CloseOf("b"), pcB) else (CloseOf("c"), pcC);
      && pc.Closing? && CloseNext(d, id, call, pc.room, pc.me, pc.close) == (d', Goto(pc'))
      && (AtCount(pc) ==> d == ThreeVotes() && pc.close.now == LATER)
    ensures Along(run', m, Closers(s, d', if id == 5 then pc' else pcB, if id == 6 then pc' else pcC)) && run <= run'
  {
    hide CloseNext, Along, ThreeVotes, AtCount, Closers;
    TurnGranted(s, d, pcB, pcC, id);
    TurnStep(s, d, pcB, pcC, id, d', pc');
    run' := GoesOn(run, m, Closers(s, d, pcB, pcC), Run(id, TickAt(LATER)));
  }

  lemma TurnStep(s: State, d: Db, pcB: Pc, pcC: Pc, id: RequestId, d': Db, pc': Pc)
    requires (id == 5 || id == 6) && 5 !in s.pings && 6 !in s.pings
    requires var (call, pc) := if id == 5 then (CloseOf("b"), pcB) else (CloseOf("c"), pcC);
      pc.Closing? && CloseNext(d, id, call, pc.room, pc.me, pc.close) == (d', Goto(pc'))
    ensures Step(Closers(s, d, pcB, pcC), Run(id, TickAt(LATER)))
         == Closers(s, d', if id == 5 then pc' else pcB, if id == 6 then pc' else pcC)
  {
    hide CloseNext;
    var requests: map<RequestId, Request> := s.requests;
    var b, c := CloseOf("b"), CloseOf("c");
    assert requests[5 := Request(b, pcB)][6 := Request(c, pcC)][5 := Request(b, pc')]
        == requests[5 := Request(b, pc')][6 := Request(c, pcC)];
    assert requests[5 := Request(b, pcB)][6 := Request(c, pcC)][6 := Request(c, pc')]
        == requests[5 := Request(b, pcB)][6 := Request(c, pc')];
  }

  ghost function Counted(): Cause {
    Consensus(Sighting(RosterOf(ThreeVotes(), ROOM), LATER))
  }

  ghost function Ended(): Db {
    UpdateRoomState(ThreeVotes(), ROOM, Active, Closed, LATER, Counted(), 6).0
  }

  ghost function Cleared(): Db {
    ClearCloseVotes(Ended(), ROOM)
  }

  ghost function Swap(): CloseStep {
    SwapClosed(Closed, LATER, Counted())
  }

  lemma ClosingSteps()
    ensures var d, r := ThreeVotes(), NewRoom(20, 4, 0);
      && CloseNext(d, 5, CloseOf("b"), r, HandleFor("b"), CountVotes(LATER)) == (d, Goto(AtStep("b", Swap())))
      && CloseNext(d, 6, CloseOf("c"), r, HandleFor("c"), CountVotes(LATER)) == (d, Goto(AtStep("c", Swap())))
      && CloseNext(d, 6, CloseOf("c"), r, HandleFor("c"), Swap())
         == (Ended(), Goto(AtStep("c", CloseStep.ClearVotes)))
  {
    hide HandleFor, ThreeVotes, CloseVoters, Live, RosterOf;
    AllLive();
  }

  lemma ClearedOnceAndForAll(d: Db, room: RoomId)
    ensures ClearCloseVotes(ClearCloseVotes(d, room), room) == ClearCloseVotes(d, room)
  {
    var once, twice := ClearCloseVotes(d, room), ClearCloseVotes(ClearCloseVotes(d, room), room);
    assert once.participants == twice.participants;
  }

  lemma SwapLost()
    ensures var r := NewRoom(20, 4, 0);
      && CloseNext(Ended(), 5, CloseOf("b"), r, HandleFor("b"), Swap())
         == (Ended(), Goto(AtStep("b", Recheck(Counted()))))
      && CloseNext(Ended(), 5, CloseOf("b"), r, HandleFor("b"), Recheck(Counted()))
         == (Ended(), Goto(AtStep("b", CloseStep.ClearVotes)))
  {
    hide HandleFor, ThreeVotes, Counted;
    VotedRows();
  }

  lemma VotesCleared()
    ensures var r, clear := NewRoom(20, 4, 0), CloseStep.ClearVotes;
      && CloseNext(Ended(), 6, CloseOf("c"), r, HandleFor("c"), clear) == (Cleared(), Goto(Notifying))
      && CloseNext(Cleared(), 5, CloseOf("b"), r, HandleFor("b"), clear) == (Cleared(), Goto(Notifying))
  {
    hide HandleFor, Ended, ClearCloseVotes;
    ClearedOnceAndForAll(Ended(), ROOM);
  }

  /** Both count, one closes the room, the other finds it closed, and both are about to ring. */
  lemma TheyClose(run: seq<Action>, m: nat, s: State) returns (run': seq<Action>, n: nat)
    requires 5 !in s.pings && 6 !in s.pings
    requires Along(run, m, Closers(s, ThreeVotes(), AtStep("b", CountVotes(LATER)), AtStep("c", CountVotes(LATER))))
    ensures Along(run', m, Closers(s, Cleared(), Notifying, Notifying)) && run <= run' && |run| <= n <= |run'|
    ensures Exec(INIT, run'[..n]) == Closers(s, ThreeVotes(), AtStep("b", Swap()), AtStep("c", Swap()))
  {
    hide CloseNext, Along, HandleFor, ThreeVotes, Ended, Cleared, Counted, Exec, Closers;
    var d, e, f := ThreeVotes(), Ended(), Cleared();
    var swap, clear, count, recheck := Swap(), CloseStep.ClearVotes, CountVotes(LATER), Recheck(Counted());
    ClosingSteps();
    SwapLost();
    VotesCleared();
    run' := Turn(run, m, s, d, AtStep("b", count), AtStep("c", count), 5, d, AtStep("b", swap));
    run' := Turn(run', m, s, d, AtStep("b", swap), AtStep("c", count), 6, d, AtStep("c", swap));
    var both := run';
    n := |both|;
    AlongIsAt(both, m, Closers(s, d, AtStep("b", swap), AtStep("c", swap)));
    run' := Turn(run', m, s, d, AtStep("b", swap), AtStep("c", swap), 6, e, AtStep("c", clear));
    run' := Turn(run', m, s, e, AtStep("b", swap), AtStep("c", clear), 5, e, AtStep("b", recheck));
    run' := Turn(run', m, s, e, AtStep("b", recheck), AtStep("c", clear), 5, e, AtStep("b", clear));
    run' := Turn(run', m, s, e, AtStep("b", clear), AtStep("c", clear), 6, f, Notifying);
    run' := Turn(run', m, s, f, AtStep("b", clear), Notifying, 5, f, Notifying);
    assert run'[..n] == both;
  }

  lemma AlongIsAt(run: seq<Action>, m: nat, s: State)
    requires Along(run, m, s)
    ensures At(run, s)
  {
  }

  lemma RingStep(s: State, id: RequestId)
    requires id in s.requests && s.requests[id].pc.Notifying? && s.requests[id].call.op.Close?
    ensures var s' := Step(s, Run(id, TickAt(LATER))); s'.calls == s.calls && s'.requests == s.requests - {id}
    ensures STRETCH.last.Keys == STRETCH.present && GrantedStep(STRETCH, s, Run(id, TickAt(LATER)))
  {
    Apart();
    hide HandleFor;
  }

  /** The last rings. */
  lemma TheyRing(run: seq<Action>, m: nat, s: State) returns (run': seq<Action>, s': State)
    requires Along(run, m, Closers(s, Cleared(), Notifying, Notifying)) && s.requests.Keys == {4} && |s.calls| == 5
    ensures Along(run', m, s') && run <= run' && s'.calls == s.calls + [CloseOf("b"), CloseOf("c")]
    ensures Answered(STRETCH, s')
  {
    hide Along, HandleFor, Cleared, Step;
    var a, b, s0 := Run(6, TickAt(LATER)), Run(5, TickAt(LATER)), Closers(s, Cleared(), Notifying, Notifying);
    RingStep(s0, 6);
    run' := GoesOn(run, m, s0, a);
    RingStep(Step(s0, a), 5);
    run' := GoesOn(run', m, Step(s0, a), b);
    s' := Step(Step(s0, a), b);
    Apart();
  }

  // ---- the stretch ----

  /** Each of those present ends with a close: `a` and `b` are in the room from the start, and `c` before its close. */
  lemma EverybodyCloses(run: seq<Action>, k: nat, n: nat)
    requires k <= |run| && n <= |run| && Exec(INIT, run).calls == CALLS
    requires Exec(INIT, run[..k]).db == Two() && |Exec(INIT, run[..k]).calls| == 2
    requires Exec(INIT, run[..n]).db == Joined() && |Exec(INIT, run[..n]).calls| == 4
    ensures STRETCH.last.Keys == STRETCH.present
    ensures forall h :: h in STRETCH.present ==> ClosesByInstance(STRETCH, run, h)
  {
    hide HandleFor, Two, Joined, Exec;
    Apart();
    TheyAreThere();
    assert InRoomAt(run, k, 2, ROOM, "a", HandleFor("a"));
    assert InRoomAt(run, k, 5, ROOM, "b", HandleFor("b"));
    assert InRoomAt(run, n, 6, ROOM, "c", HandleFor("c"));
  }

  lemma TheyAreThere()
    ensures HasInstance(Two(), ROOM, "a", HandleFor("a")) && HasInstance(Two(), ROOM, "b", HandleFor("b"))
    ensures HasInstance(Joined(), ROOM, "c", HandleFor("c"))
  {
    hide HandleFor, Two, Joined;
    Gathered();
    Names();
  }

  lemma OpensRight(s: State)
    requires Idles(s, Two()) && |s.calls| == 2
    ensures Opening(STRETCH, s) && IsOpen(STRETCH, s.db) && ROOM in s.db.rooms
    ensures !HasHandle(s.db, ROOM, HandleFor("c"))
  {
    Apart();
    Rows();
    hide HandleFor, Two;
    assert HandleFor("a") in STRETCH.present && !HasCounted(STRETCH, s, HandleFor("a"));
  }

  /** The votes of `a` and `c` stand, more than a ghost window apart. */
  ghost predicate FarApart(d: Db) {
    && VoteStands(d, HandleFor("a")) && VoteStands(d, HandleFor("c"))
    && d.participants[HandleFor("a")].wantsClose.value.at
        + GHOST_AFTER < d.participants[HandleFor("c")].wantsClose.value.at
  }

  /** Both later closes have counted, and neither has closed the room. */
  ghost predicate BothCounted(s: State) {
    && 5 in s.requests && AtSwap(s.requests[5].pc) && 6 in s.requests && AtSwap(s.requests[6].pc)
    && IsOpen(STRETCH, s.db) && FarApart(s.db)
  }

  lemma MidwayBothCounted(s: State)
    ensures BothCounted(Closers(s, ThreeVotes(), AtStep("b", Swap()), AtStep("c", Swap())))
  {
    hide HandleFor, ThreeVotes;
    VotedRows();
  }

  /** All of it, in one run: where the stretch begins, and where both have counted. */
  lemma WholeRun() returns (run: seq<Action>, k: nat, n: nat)
    ensures k <= n <= |run| && Exec(INIT, run).calls == CALLS && Answered(STRETCH, Exec(INIT, run))
    ensures Idles(Exec(INIT, run[..k]), Two()) && |Exec(INIT, run[..k]).calls| == 2
    ensures BothCounted(Exec(INIT, run[..n]))
    ensures STRETCH.last.Keys == STRETCH.present && CountsGranted(STRETCH, run, k)
        && forall h :: h in STRETCH.present ==> ClosesByInstance(STRETCH, run, h)
  {
    hide HandleFor, Two, Joined, Exec, Fresh, TwoVotes, ThreeVotes, Cleared, Answered, BothCounted, HasVoted,
        CountsGranted, ClosesByInstance, TouchLastPoll;
    var pre, early, s := AVotesAndCJoins();
    var before := APollsAndBVotes(early, s);
    var voted := CVotes(before, s);
    var closed;
    closed, n := TheyClose(voted, |before|, Polling(s));
    var end;
    run, end := TheyRing(closed, |before|, Polling(s));
    k := |pre|;
    MidwayBothCounted(Polling(s));
    assert run[..k] == pre && run[..|early|] == early && run[..|before|] == before && run[..n] == closed[..n];
    AlongIsAt(run, |before|, end);
    EverybodyCloses(run, k, |early|);
    NotAllVoted(STRETCH, run, k, |before|, HandleFor("c"));
  }

  lemma CallsArePeaceful()
    ensures Peaceful(CALLS)
  {
    assert forall call <- CALLS :: call in CALLS;
  }

  /** The theorem's conditions hold of a run from the empty daemon in which the votes lie more than a ghost window
      apart, one of those present joins in between, at some moment both later closes have counted and neither has closed
      the room, and in the end all are answered. */
  lemma StretchesHappen() returns (pre: seq<Action>, run: seq<Action>, n: nat)
    ensures var s := Exec(INIT, pre);
      && IsStretch(STRETCH, s, run) && Answered(STRETCH, Exec(s, run)) && n <= |run|
      && IsOpen(STRETCH, s.db) && !HasHandle(s.db, ROOM, HandleFor("c")) && BothCounted(Exec(s, run[..n]))
  {
    hide HandleFor, Two, Exec, Answered, BothCounted, IsOpen, HasHandle, CountsGranted, ClosesByInstance, Peaceful,
        Opening, IsStretch;
    var whole, k, both := WholeRun();
    pre, run, n := whole[..k], whole[k..], both - k;
    OpensRight(Exec(INIT, pre));
    CallsArePeaceful();
    PeacefulStretch(STRETCH, whole, k);
    StretchOf(whole, k);
    assert whole[..|whole|] == whole && run[..|run|] == run;
  }
}
