/** Runs in which a handle is pruned and minted again in another room while a request still acts by it: in one a claim
    strays, in one a vote, and in one a vote is taken away. */
module StrayRuns {
  import opened Wrappers
  import opened Lifecycle
  import opened Tables
  import opened Protocol
  import opened Evolution
  import opened Claims
  import opened Wakeup
  import opened VoteWakeup
  import opened StrayVotes
  import opened Scenario

  const HERE: RoomId := "here"
  const THERE: RoomId := "there"

  ghost function Opened(): Db {
    EMPTY.(rooms := map[HERE := NewRoom(20, 4, 0), THERE := NewRoom(20, 4, 0)])
  }

  /** `p` and `s` are in the one room. */
  ghost function Joined(): Db {
    WithRow(WithRow(Opened(), 0, HERE, "p", 0), 1, HERE, "s", 0)
  }

  lemma Rows()
    ensures HandleFor("p") != HandleFor("s") && HandleFor("p") != "p"
    ensures Unknown(Opened(), HERE, "p") && Unknown(WithRow(Opened(), 0, HERE, "p", 0), HERE, "s")
    ensures Knows(Joined(), HERE, "p") && Knows(Joined(), HERE, "s")
    ensures Joined().participants == map[HandleFor("p") := NewRow(Opened(), 0, HERE, "p", 0),
                                         HandleFor("s") := NewRow(WithRow(Opened(), 0, HERE, "p", 0), 1, HERE, "s", 0)]
    ensures Joined().messages == [] && Joined().rooms == Opened().rooms && Joined().casts == 0
  {
    NamesApart("p", "s");
    NamesApart("p", "p");
    hide HandleFor;
    var d0, d1 := Opened(), WithRow(Opened(), 0, HERE, "p", 0);
    assert forall n :: Unknown(d0, HERE, n);
    assert Joined().participants == map[HandleFor("p") := NewRow(d0, 0, HERE, "p", 0),
                                        HandleFor("s") := NewRow(d1, 1, HERE, "s", 0)];
    hide WithRow, Knows, Unknown;
    OtherJoins(d0, 0, HERE, "p", 0, HERE, "s");
    OtherJoins(d1, 1, HERE, "s", 0, HERE, "p");
    NewlyKnown(d0, 0, HERE, "p", 0);
    NewlyKnown(d1, 1, HERE, "s", 0);
  }

  lemma BothJoin() returns (run: seq<Action>, s: State)
    ensures At(run, s) && Idles(s, Joined()) && |s.calls| == 2
  {
    Rows();
    run, s := Opens([], INIT, HERE);
    run, s := Opens(run, s, THERE);
    assert s.db == Opened();
    hide At, NoPrune, WithRow, Unknown, Exec;
    run, s := Joins(run, s, HERE, "p", 0);
    run, s := Joins(run, s, HERE, "s", 0);
  }

  // ---- pruned here, minted again there ----

  /** The room is pruned of its two dark rows. */
  lemma Prunes(run: seq<Action>, s: State, room: RoomId, now: Time) returns (run': seq<Action>, s': State)
    requires At(run, s) && Fresh(s) && room in s.db.rooms
    ensures At(run', s') && s'.db == PruneStale(s.db, room, now - GHOST_AFTER)
    ensures s'.calls == s.calls + [Call(Prune, room, "")]
    ensures s'.requests == s.requests && s'.pings == s.pings && s'.unannounced == s.unannounced && Fresh(s')
  {
    var call, t := Call(Prune, room, ""), TickAt(now);
    LoadAdvance(s.db, |s.calls|, call, t);
    assert LoadStep(s.db, call, t) == Goto(Pruning);
    assert Advance(s.db, |s.calls|, Request(call, Pruning), false, t)
        == (PruneStale(s.db, room, now - GHOST_AFTER), Finish);
    hide At, NoPrune, Fresh, Advance, LoadStep, With, PruneStale;
    run' := Begins(run, s, call);
    run' := Goes(run', s, call, s.db, LoadRoom, t, s.db, Pruning);
    run', s' := Ends(run', s, call, s.db, Pruning, t, PruneStale(s.db, room, now - GHOST_AFTER), Finish);
    StaysFresh(s, s');
  }

  /** A state in which all rows are dark ones of the one room. */
  ghost predicate AllDark(d: Db) {
    && HERE in d.rooms && THERE in d.rooms
    && forall h :: h in d.participants ==> d.participants[h].room == HERE && d.participants[h].lastPollAt == 0
  }

  lemma PrunedAway(d: Db, name: string)
    requires AllDark(d)
    ensures var d' := PruneStale(d, HERE, LATER - GHOST_AFTER);
      d' == d.(participants := map[]) && Unknown(d', THERE, name)
  {
    hide HandleFor;
  }

  /** Both rows are pruned, and one of the two joins the other room under the handle it had. */
  lemma Relocates(run: seq<Action>, s: State, name: string) returns (run': seq<Action>, s': State)
    requires At(run, s) && Fresh(s) && AllDark(s.db)
    ensures At(run', s') && s'.db == WithRow(s.db.(participants := map[]), |s.calls| + 1, THERE, name, LATER)
        && Fresh(s')
    ensures s'.requests == s.requests && s'.pings == s.pings && s'.unannounced == s.unannounced
        && |s'.calls| == |s.calls| + 2 && s.calls <= s'.calls
  {
    PrunedAway(s.db, name);
    hide At, NoPrune, Fresh, WithRow, Unknown, PruneStale;
    run', s' := Prunes(run, s, HERE, LATER);
    run', s' := Joins(run', s', THERE, name, LATER);
  }

  // ---- a claim that strays ----

  const SEND := Call(Send(None, false), HERE, "s")
  const WAIT := Call(Wait(true), HERE, "p")

  ghost function Sent(): Db {
    Append(Joined(), Message(HERE, HandleFor("s"), None, Msg, false, 0, 2))
  }

  lemma SendSteps()
    ensures var r, t, me := NewRoom(20, 4, 0), TickAt(0), HandleFor("s");
      && Advance(Joined(), 2, Request(SEND, LoadRoom), false, t) == (Joined(), Goto(FindInstance(r)))
      && Advance(Joined(), 2, Request(SEND, FindInstance(r)), false, t)
          == (Joined(), Goto(Sending(r, me, InsertCapped)))
      && Advance(Joined(), 2, Request(SEND, Sending(r, me, InsertCapped)), false, t)
         == (Sent(), Goto(Sending(r, me, DropCloseVote(0))))
  {
    Rows();
    hide HandleFor, Joined;
  }

  lemma ClaimSteps()
    ensures var t, me := TickAt(0), HandleFor("p");
      Advance(Sent(), 3, Request(WAIT, Waiting(me, 0, false, ReadUnread(0))), false, t)
      == (Sent(), Goto(Waiting(me, 0, false, SwapCursor(0, 1))))
    ensures TouchLastPoll(Sent(), HandleFor("p"), 0) == Sent() && Knows(Sent(), HERE, "p") && AllDark(Sent())
    ensures NothingAfoot(Sent(), HERE, HandleFor("p"), 0)
    ensures Sent().participants[HandleFor("p")].row == 0 && Sent().participants[HandleFor("p")].cursor == 0
    ensures Sent().rooms[HERE] == NewRoom(20, 4, 0)
  {
    Rows();
    hide HandleFor, Joined, Knows;
    assert SameRows(Joined(), Sent());
    StillKnown(Joined(), Sent(), HERE, "p");
    var d := Sent();
    assert HandleFor("s") in RosterOf(d, HERE);
    assert d.participants[HandleFor("p") := d.participants[HandleFor("p")]] == d.participants;
    assert Relevant(d.messages, HERE, HandleFor("p"), 1);
  }

  /** `s` has sent a message and not come further. */
  lemma Sends() returns (run: seq<Action>, s0: State)
    ensures Idles(s0, Joined()) && |s0.calls| == 2
    ensures At(run, With(s0, SEND, Sent(), Sending(NewRoom(20, 4, 0), HandleFor("s"), DropCloseVote(0))))
  {
    var r, t, me := NewRoom(20, 4, 0), TickAt(0), HandleFor("s");
    SendSteps();
    run, s0 := BothJoin();
    hide At, NoPrune, Fresh, HandleFor, Joined, Sent, Advance, TickAt, NewRoom, With;
    run := Begins(run, s0, SEND);
    run := Goes(run, s0, SEND, Joined(), LoadRoom, t, Joined(), FindInstance(r));
    run := Goes(run, s0, SEND, Joined(), FindInstance(r), t, Joined(), Sending(r, me, InsertCapped));
    run := Goes(run, s0, SEND, Joined(), Sending(r, me, InsertCapped), t, Sent(), Sending(r, me, DropCloseVote(0)));
  }

  /** `p` has found the message and is about to claim it. */
  lemma ClaimPends() returns (run: seq<Action>, s: State)
    ensures At(run, s) && Fresh(s) && s.db == Sent() && |s.calls| == 4 && s.pings == {}
    ensures s.requests == map[2 := Request(SEND, Sending(NewRoom(20, 4, 0), HandleFor("s"), DropCloseVote(0))),
                              3 := Request(WAIT, Waiting(HandleFor("p"), 0, false, SwapCursor(0, 1)))]
  {
    var r, t, p := NewRoom(20, 4, 0), TickAt(0), HandleFor("p");
    var sent, found := Sending(r, HandleFor("s"), DropCloseVote(0)), Waiting(p, 0, false, SwapCursor(0, 1));
    ClaimSteps();
    var s0;
    run, s0 := Sends();
    var s1 := With(s0, SEND, Sent(), sent);
    s := With(s1, WAIT, Sent(), found);
    WithStaysFresh(s0, SEND, Sent(), sent);
    WithStaysFresh(s1, WAIT, Sent(), found);
    hide At, NoPrune, Fresh, HandleFor, Joined, Sent, Knows, Advance, NothingAfoot, TickAt, NewRoom, TouchLastPoll;
    run := Polls(run, s1, HERE, "p", 0);
    run := Subscribes(run, s1, HERE, "p", 0, Sent(), r, 0);
    run := Goes(run, s1, WAIT, Sent(), Waiting(p, 0, false, ReadUnread(0)), t, Sent(), found);
  }

  /** The claim moves the cursor of the row in the other room: to a message of the room it was made for. */
  lemma ClaimGoesAstray() returns (run: seq<Action>)
    ensures !NoneStrays(run) && !ExactThroughout(run)
    ensures var d := Exec(INIT, run).db;
      && |d.messages| == 1 && d.messages[0].room == HERE
      && HasHandle(d, THERE, HandleFor("p")) && d.participants[HandleFor("p")].claimed == [1]
  {
    var s, pre;
    pre, s := ClaimPends();
    ClaimSteps();
    pre, s := Relocates(pre, s, "p");
    run := pre + [Run(3, TickAt(LATER))];
    OneMore(pre, s, Run(3, TickAt(LATER)));
    Claimed(s);
    assert run[..|pre|] == pre && StepStrays(Exec(INIT, run[..|pre|]), run[|pre|]);
    hide Exec, Step, StepStrays, ExactThroughout;
    ClaimsAreExact(run);
  }

  lemma Claimed(s: State)
    requires s.db == WithRow(Sent().(participants := map[]), 5, THERE, "p", LATER) && s.pings == {}
    requires 3 in s.requests && s.requests[3] == Request(WAIT, Waiting(HandleFor("p"), 0, false, SwapCursor(0, 1)))
    ensures StepStrays(s, Run(3, TickAt(LATER)))
    ensures var d := Step(s, Run(3, TickAt(LATER))).db;
      && |d.messages| == 1 && d.messages[0].room == HERE
      && HasHandle(d, THERE, HandleFor("p")) && d.participants[HandleFor("p")].claimed == [1]
  {
    Rows();
    hide HandleFor, Joined;
  }

  // ---- a vote that strays ----

  const CLOSE := Call(Close(false), HERE, "p")

  ghost function Casting(): Pc {
    Closing(NewRoom(20, 4, 0), HandleFor("p"), CastVote(0))
  }

  ghost function Elsewhere(): Db {
    WithRow(Joined().(participants := map[]), 4, THERE, "p", LATER)
  }

  ghost function Company(): Db {
    WithRow(Elsewhere(), 5, THERE, "x", LATER)
  }

  lemma CompanyRows()
    ensures HandleFor("p") != HandleFor("x")
    ensures Unknown(Elsewhere(), THERE, "x") && Knows(Company(), THERE, "x")
    ensures Company().participants.Keys == {HandleFor("p"), HandleFor("x")}
    ensures forall h :: h in Company().participants ==>
      var p := Company().participants[h];
      p.room == THERE && p.lastPollAt == LATER && p.wantsClose.None? && p.wantsExtend.None? && p.cursor == 0
    ensures Company().messages == [] && TouchLastPoll(Company(), HandleFor("x"), LATER) == Company()
    ensures NothingAfoot(Company(), THERE, HandleFor("x"), LATER)
  {
    Rows();
    NamesApart("p", "x");
    hide HandleFor, Joined;
    var d := Joined().(participants := map[]);
    assert Unknown(d, THERE, "x");
    assert HandleFor("p") in RosterOf(Company(), THERE);
    assert Company().participants[HandleFor("x") := Company().participants[HandleFor("x")]] == Company().participants;
    hide WithRow, Knows, Unknown;
    OtherJoins(d, 4, THERE, "p", LATER, THERE, "x");
    NewlyKnown(Elsewhere(), 5, THERE, "x", LATER);
  }

  /** `p` is about to cast its vote, is pruned and joins the other room. */
  lemma VoterMoves() returns (run: seq<Action>, s: State)
    ensures At(run, s) && Fresh(s) && |s.calls| == 5 && s.db == Elsewhere() && s.pings == {} && s.unannounced == map[]
    ensures s.requests == map[2 := Request(CLOSE, Casting())] && s.calls[2] == CLOSE
  {
    Rows();
    JoinedDark();
    run, s := BothJoin();
    WithStaysFresh(s, CLOSE, Joined(), Casting());
    hide At, NoPrune, Fresh, HandleFor, Joined, Knows, NewRow;
    run := AsksToClose(run, s, HERE, "p", 0);
    s := With(s, CLOSE, Joined(), Casting());
    run, s := Relocates(run, s, "p");
  }

  lemma JoinedDark()
    ensures AllDark(Joined()) && TouchLastPoll(Joined(), HandleFor("p"), 0) == Joined()
  {
    Rows();
    hide HandleFor, Joined;
    assert Joined().participants[HandleFor("p") := Joined().participants[HandleFor("p")]] == Joined().participants;
  }

  function Sleeping(saw: Sighting, row: nat): Pc {
    Waiting(HandleFor("x"), row, false, Parked(saw, saw))
  }

  ghost function Seen(): Sighting {
    Sighting(RosterOf(Company(), THERE), LATER)
  }

  /** `x` joins the other room too and falls asleep there. */
  lemma CompanySleeps() returns (run: seq<Action>, s: State)
    ensures At(run, s) && s.db == Company() && s.pings == {} && s.unannounced == map[] && |s.calls| > 2
        && s.calls[2] == CLOSE
    ensures HandleFor("x") in Company().participants
    ensures s.requests == map[2 := Request(CLOSE, Casting()),
                              6 := Request(Call(Wait(true), THERE, "x"),
                                           Sleeping(Seen(), Company().participants[HandleFor("x")].row))]
  {
    CompanyRows();
    run, s := VoterMoves();
    hide At, NoPrune, Fresh, HandleFor, Elsewhere, Knows, Unknown, NewRow, NothingAfoot, RosterOf, TouchLastPoll;
    run, s := Joins(run, s, THERE, "x", LATER);
    assert s.db == Company();
    run := FallsAsleep(run, s, THERE, "x", LATER);
    s := With(s, Call(Wait(true), THERE, "x"), Company(), Sleeping(Seen(), Company().participants[HandleFor("x")].row));
  }

  ghost function VotedAway(): Db {
    CastCloseVote(Company(), HandleFor("p"), 0, 2)
  }

  lemma Casts()
    ensures Advance(Company(), 2, Request(CLOSE, Casting()), false, TickAt(LATER))
         == (VotedAway(), Goto(Closing(NewRoom(20, 4, 0), HandleFor("p"), CountVotes(0))))
    ensures CastStrays(Company(), Request(CLOSE, Casting()))
  {
    CompanyRows();
    hide HandleFor, Company;
  }

  /** The state the vote leaves. */
  ghost predicate Landed(s: State) {
    && s.db == VotedAway() && s.pings == {} && s.unannounced == map[] && HandleFor("x") in Company().participants
    && |s.calls| > 2 && s.calls[2] == CLOSE
    && s.requests == map[2 := Request(CLOSE, Closing(NewRoom(20, 4, 0), HandleFor("p"), CountVotes(0))),
                         6 := Request(Call(Wait(true), THERE, "x"),
                                      Sleeping(Seen(), Company().participants[HandleFor("x")].row))]
  }

  lemma VoteLands() returns (run: seq<Action>, s: State)
    ensures At(run, s) && Landed(s) && !NoneCastAway(run)
  {
    var t := TickAt(LATER);
    var pre, s0;
    pre, s0 := CompanySleeps();
    Casts();
    var next := Goto(Closing(NewRoom(20, 4, 0), HandleFor("p"), CountVotes(0)));
    s := Apply(s0, 2, VotedAway(), next, t);
    hide At, NoPrune, HandleFor, Company, VotedAway, Seen, NewRoom, Advance, CastStrays, NoneCastAway, Apply, Landed;
    Lands(s0);
    run := Moves(pre, s0, 2, t, VotedAway(), next);
    StrayedAt(pre, s0, run);
  }

  lemma Lands(s0: State)
    requires s0.pings == {} && s0.unannounced == map[] && HandleFor("x") in Company().participants
    requires |s0.calls| > 2 && s0.calls[2] == CLOSE
    requires s0.requests == map[2 := Request(CLOSE, Casting()),
                                6 := Request(Call(Wait(true), THERE, "x"),
                                             Sleeping(Seen(), Company().participants[HandleFor("x")].row))]
    ensures Landed(Apply(s0, 2, VotedAway(), Goto(Closing(NewRoom(20, 4, 0), HandleFor("p"), CountVotes(0))),
                         TickAt(LATER)))
  {
    hide HandleFor, Company, VotedAway, Seen, NewRoom;
  }

  lemma StrayedAt(pre: seq<Action>, s0: State, run: seq<Action>)
    requires At(pre, s0) && StepCastStrays(s0, Run(2, TickAt(LATER))) && run == pre + [Run(2, TickAt(LATER))]
    ensures !NoneCastAway(run)
  {
    hide StepCastStrays, Exec;
    assert run[..|pre|] == pre && run[|pre|] == Run(2, TickAt(LATER));
    assert StepCastStrays(Exec(INIT, run[..|pre|]), run[|pre|]);
  }

  lemma MissedThere(s: State)
    requires Landed(s)
    ensures Misses(s, 6, LATER)
    ensures forall h :: LiveVoter(s.db, THERE, HandleFor("x"), LATER, h) ==>
      && CameFromOutside(s, THERE, s.db.participants[h].wantsClose.value)
      && !CameBack(Seen(), h, s.db.participants[h])
  {
    CompanyRows();
    hide HandleFor, Company;
    assert HandleFor("p") in RosterOf(s.db, THERE);
  }

  /** The vote lands on the row in the other room, and its ring will go to the room it was meant for: who sleeps in the
      other one is not told, for this reason and for no other. */
  lemma VoteGoesAstray() returns (run: seq<Action>, w: RequestId)
    ensures !NoneCastAway(run) && !HomeThroughout(run)
    ensures var s := Exec(INIT, run);
      && Misses(s, w, LATER) && s.unannounced == map[]
      && var me, room := s.requests[w].pc.me, s.requests[w].call.room;
         forall h :: LiveVoter(s.db, room, me, LATER, h) ==>
           && CameFromOutside(s, room, s.db.participants[h].wantsClose.value)
           && !CameBack(s.requests[w].pc.stage.sawClose, h, s.db.participants[h])
  {
    var s;
    run, s := VoteLands();
    w := 6;
    MissedThere(s);
    VotesStayHome(run);
    hide NoneCastAway, HomeThroughout, CameBack, Company, HandleFor, VotedAway, Seen, Misses, Exec, NewRoom, LiveVoter,
        CameFromOutside;
  }

  // ---- a vote that is taken away ----

  ghost function Settled(): Db {
    WithRow(Sent().(participants := map[]), 4, THERE, "s", LATER)
  }

  ghost function Crowd(): Db {
    WithRow(WithRow(Settled(), 5, THERE, "x", LATER), 6, THERE, "y", LATER)
  }

  ghost function XVoted(): Db {
    Voted(Crowd(), 7, HandleFor("x"), LATER)
  }

  ghost function BothVoted(): Db {
    Voted(XVoted(), 8, HandleFor("s"), LATER)
  }

  ghost function Taken(): Db {
    RetractCloseVote(BothVoted(), HandleFor("s"))
  }

  lemma CrowdRows()
    ensures HandleFor("s") != HandleFor("x") && HandleFor("s") != HandleFor("y") && HandleFor("x") != HandleFor("y")
    ensures Unknown(Settled(), THERE, "x") && Unknown(WithRow(Settled(), 5, THERE, "x", LATER), THERE, "y")
    ensures Knows(Crowd(), THERE, "x") && Knows(Crowd(), THERE, "s")
    ensures Crowd().participants.Keys == {HandleFor("s"), HandleFor("x"), HandleFor("y")}
    ensures forall h :: h in Crowd().participants ==>
      var p := Crowd().participants[h];
      p.room == THERE && p.lastPollAt == LATER && p.wantsClose.None? && p.wantsExtend.None? && p.cursor == 0
    ensures Crowd().messages == Sent().messages && Crowd().rooms == Opened().rooms
  {
    hide HandleFor, Joined, WithRow, Knows, Unknown;
    NamesApart("s", "x");
    NamesApart("s", "y");
    NamesApart("x", "y");
    SettledRows();
    var d, d1 := Settled(), WithRow(Settled(), 5, THERE, "x", LATER);
    OtherJoins(d, 5, THERE, "x", LATER, THERE, "s");
    OtherJoins(d, 5, THERE, "x", LATER, THERE, "y");
    NewlyKnown(d, 5, THERE, "x", LATER);
    OtherJoins(d1, 6, THERE, "y", LATER, THERE, "s");
    OtherJoins(d1, 6, THERE, "y", LATER, THERE, "x");
    NewRowIs(d, 5, "x");
    NewRowIs(d1, 6, "y");
  }

  lemma SettledRows()
    ensures Unknown(Settled(), THERE, "x") && Unknown(Settled(), THERE, "y") && Knows(Settled(), THERE, "s")
    ensures Settled().participants.Keys == {HandleFor("s")} && Settled().rooms == Opened().rooms
    ensures Settled().messages == Sent().messages && CurrentSeq(Settled().messages, THERE) == 0
    ensures var p := Settled().participants[HandleFor("s")];
      p.room == THERE && p.lastPollAt == LATER && p.wantsClose.None? && p.wantsExtend.None? && p.cursor == 0
  {
    hide HandleFor, Joined, WithRow, Knows, Unknown;
    Rows();
    var d := Sent().(participants := map[]);
    assert forall name :: Unknown(d, THERE, name) by { NobodyKnown(d); }
    assert d.messages == [Message(HERE, HandleFor("s"), None, Msg, false, 0, 2)];
    OtherJoins(d, 4, THERE, "s", LATER, THERE, "x");
    OtherJoins(d, 4, THERE, "s", LATER, THERE, "y");
    NewlyKnown(d, 4, THERE, "s", LATER);
    NewRowIs(d, 4, "s");
  }

  lemma NobodyKnown(d: Db)
    requires d.participants == map[] && THERE in d.rooms
    ensures forall name :: Unknown(d, THERE, name)
  {
    hide HandleFor;
  }

  lemma NewRowIs(d: Db, id: RequestId, name: string)
    ensures var d' := WithRow(d, id, THERE, name, LATER);
      && d'.participants == d.participants[HandleFor(name) := NewRow(d, id, THERE, name, LATER)]
      && d'.rooms == d.rooms && d'.messages == d.messages
  {
  }

  /** Three sit in the other room, live, and these of them have voted. */
  ghost predicate Sit(d: Db, voters: set<Handle>) {
    && d.participants.Keys == {HandleFor("s"), HandleFor("x"), HandleFor("y")} && d.rooms == Opened().rooms
    && d.messages == Sent().messages
    && forall h :: h in d.participants ==>
         var p := d.participants[h];
         && p.room == THERE && p.lastPollAt == LATER && p.wantsExtend.None? && p.cursor == 0
         && (p.wantsClose.Some? <==> h in voters)
  }

  lemma SitAndVote(d: Db, voters: set<Handle>, id: RequestId, h: Handle)
    requires Sit(d, voters) && h in {HandleFor("s"), HandleFor("x")}
    ensures var d' := Voted(d, id, h, LATER);
      && Sit(d', voters + {h}) && (Knows(d, THERE, "s") ==> Knows(d', THERE, "s"))
  {
    hide HandleFor, Joined, Opened, Knows;
    var d' := Voted(d, id, h, LATER);
    if Knows(d, THERE, "s") { StillKnown(d, d', THERE, "s"); }
  }

  lemma TheySit()
    ensures Sit(XVoted(), {HandleFor("x")}) && Sit(BothVoted(), {HandleFor("s"), HandleFor("x")})
    ensures Sit(Taken(), {HandleFor("x")}) && Knows(XVoted(), THERE, "s") && Knows(BothVoted(), THERE, "s")
    ensures HandleFor("s") != HandleFor("x") && HandleFor("s") != HandleFor("y") && HandleFor("x") != HandleFor("y")
  {
    hide HandleFor, Crowd, Knows, Unknown, Sit, Voted;
    CrowdRows();
    assert Sit(Crowd(), {}) by { CrowdSits(); }
    var one, two := {HandleFor("x")}, {HandleFor("s"), HandleFor("x")};
    assert {} + one == one && one + {HandleFor("s")} == two;
    SitAndVote(Crowd(), {}, 7, HandleFor("x"));
    SitAndVote(XVoted(), one, 8, HandleFor("s"));
    SitTaken();
  }

  lemma CrowdSits()
    ensures Sit(Crowd(), {})
  {
    hide HandleFor, Crowd, Knows, Unknown;
    CrowdRows();
  }

  lemma SitTaken()
    requires Sit(BothVoted(), {HandleFor("s"), HandleFor("x")}) && HandleFor("s") != HandleFor("x")
    ensures Sit(Taken(), {HandleFor("x")})
  {
    hide HandleFor, BothVoted, Joined, Opened;
  }

  /** Votes of one or two of three are never enough. */
  lemma VotesLack(d: Db, voters: set<Handle>)
    requires Sit(d, voters) && voters < d.participants.Keys
    ensures var roster := RosterOf(d, THERE); |CloseVoters(roster, LATER)| < |Live(roster, LATER)|
  {
    hide HandleFor;
    var roster := RosterOf(d, THERE);
    assert roster.Keys == d.participants.Keys;
    assert Live(roster, LATER) == d.participants.Keys && CloseVoters(roster, LATER) == voters;
    var rest := d.participants.Keys - voters;
    assert d.participants.Keys == voters + rest && rest != {};
  }

  ghost function Held(): Request {
    Request(SEND, Sending(NewRoom(20, 4, 0), HandleFor("s"), DropCloseVote(0)))
  }

  /** With its send on hold, `s` has moved, and others have joined it. */
  lemma CrowdJoins() returns (run: seq<Action>, s: State)
    ensures At(run, s) && Fresh(s) && |s.calls| == 7 && s.db == Crowd() && s.pings == {} && s.unannounced == map[]
    ensures s.requests == map[2 := Held()]
  {
    hide At, NoPrune, Fresh, HandleFor, Joined, Knows, NewRoom, Unknown, WithRow, NewRow, AllDark;
    ClaimSteps();
    CrowdRows();
    var s0;
    run, s0 := Sends();
    WithStaysFresh(s0, SEND, Sent(), Held().pc);
    run, s := Relocates(run, With(s0, SEND, Sent(), Held().pc), "s");
    run, s := Joins(run, s, THERE, "x", LATER);
    run, s := Joins(run, s, THERE, "y", LATER);
  }

  const WAIT_THERE := Call(Wait(true), THERE, "s")

  ghost function SeenVotes(): Sighting {
    Sighting(RosterOf(BothVoted(), THERE), LATER)
  }

  ghost function AsleepThere(): Request
    requires HandleFor("s") in BothVoted().participants
  {
    Request(WAIT_THERE, Waiting(HandleFor("s"), BothVoted().participants[HandleFor("s")].row, false,
                                Parked(SeenVotes(), SeenVotes())))
  }

  lemma NothingForVoters()
    ensures TouchLastPoll(BothVoted(), HandleFor("s"), LATER) == BothVoted()
    ensures NothingAfoot(BothVoted(), THERE, HandleFor("s"), LATER)
    ensures NextUnread(BothVoted().messages, THERE, HandleFor("s"), 0).None?
  {
    hide HandleFor, BothVoted, Joined, Knows;
    Rows();
    TheySit();
    var d, me := BothVoted(), HandleFor("s");
    assert d.participants[me := d.participants[me]] == d.participants;
    assert HandleFor("x") in RosterOf(d, THERE) && d.messages == [Message(HERE, me, None, Msg, false, 0, 2)];
  }

  /** `x` votes, `s` votes, and `s` falls asleep with its vote standing. */
  lemma VoterSleeps() returns (run: seq<Action>, s: State)
    ensures At(run, s) && s.db == BothVoted() && s.pings == {} && s.unannounced == map[]
    ensures HandleFor("s") in BothVoted().participants && s.requests == map[2 := Held(), 9 := AsleepThere()]
    ensures |s.calls| == 10 && s.calls[7].room == THERE && s.calls[8].room == THERE
  {
    hide At, NoPrune, Fresh, HandleFor, Crowd, Knows, Unknown, Sit, Voted, RosterOf, CloseVoters, Live, Held,
        NothingAfoot, TouchLastPoll, NextUnread;
    CrowdRows();
    TheySit();
    NothingForVoters();
    CountsLack();
    run, s := CrowdJoins();
    NobodyWaitsThere();
    run, s := ProposesInVain(run, s, THERE, "x", LATER);
    run, s := ProposesInVain(run, s, THERE, "s", LATER);
    run := FallsAsleep(run, s, THERE, "s", LATER);
    s := With(s, WAIT_THERE, BothVoted(), AsleepThere().pc);
  }

  lemma NobodyWaitsThere()
    ensures SubscribersOf(map[2 := Held()], THERE) == {}
  {
  }

  lemma CountsLack()
    ensures var one, two := RosterOf(XVoted(), THERE), RosterOf(BothVoted(), THERE);
      && |CloseVoters(one, LATER)| < All.Needed(|Live(one, LATER)|)
      && |CloseVoters(two, LATER)| < All.Needed(|Live(two, LATER)|)
    ensures XVoted() == Voted(Crowd(), 7, HandleFor("x"), LATER)
        && BothVoted() == Voted(XVoted(), 8, HandleFor("s"), LATER)
    ensures Crowd().rooms == XVoted().rooms == Opened().rooms && HandleFor("s") in BothVoted().participants
    ensures BothVoted().participants[HandleFor("s")].cursor == 0
  {
    hide HandleFor, Crowd, Knows, Voted, RosterOf, CloseVoters, Live;
    CrowdRows();
    TheySit();
    VotesLack(XVoted(), {HandleFor("x")});
    VotesLack(BothVoted(), {HandleFor("s"), HandleFor("x")});
  }

  ghost function Dropped(): Pc {
    Sending(NewRoom(20, 4, 0), HandleFor("s"), DropExtendVote(0))
  }

  lemma Drops()
    ensures Advance(BothVoted(), 2, Held(), false, TickAt(LATER)) == (Taken(), Goto(Dropped()))
    ensures Takes(BothVoted(), Held(), THERE, HandleFor("s"), CloseVote)
  {
    hide HandleFor, BothVoted;
    TheySit();
  }

  /** The state it leaves. */
  ghost predicate Bereft(s: State) {
    && s.db == Taken() && s.pings == {} && s.unannounced == map[] && HandleFor("s") in BothVoted().participants
    && s.requests == map[2 := Request(SEND, Dropped()), 9 := AsleepThere()]
    && |s.calls| == 10 && s.calls[7].room == THERE
  }

  lemma VoteDropped() returns (run: seq<Action>, s: State)
    ensures At(run, s) && Bereft(s) && TakenSince(run, 9, CloseVote)
  {
    hide At, NoPrune, HandleFor, BothVoted, Taken, NewRoom, Advance, Takes, Apply, Bereft, TakenSince, Fits;
    var t, pre, s0 := TickAt(LATER), [], INIT;
    pre, s0 := VoterSleeps();
    Drops();
    BecomesBereft(s0);
    s := Apply(s0, 2, Taken(), Goto(Dropped()), t);
    assert Fits(SEND, Held().pc) by { HeldFits(); }
    run := Moves(pre, s0, 2, t, Taken(), Goto(Dropped()));
    TakenNow(pre, s0, run, s);
  }

  lemma HeldFits()
    ensures Fits(SEND, Held().pc)
  {
  }

  lemma BecomesBereft(s0: State)
    requires s0.pings == {} && s0.unannounced == map[] && HandleFor("s") in BothVoted().participants
    requires s0.requests == map[2 := Held(), 9 := AsleepThere()] && |s0.calls| == 10 && s0.calls[7].room == THERE
    ensures Bereft(Apply(s0, 2, Taken(), Goto(Dropped()), TickAt(LATER)))
  {
    hide HandleFor, BothVoted, Taken, NewRoom, RosterOf;
  }

  lemma TakenNow(pre: seq<Action>, s0: State, run: seq<Action>, s: State)
    requires At(pre, s0) && At(run, s) && run == pre + [Run(2, TickAt(LATER))] && s0.db == BothVoted() && Bereft(s)
    requires HandleFor("s") in BothVoted().participants && s0.requests == map[2 := Held(), 9 := AsleepThere()]
    requires Takes(BothVoted(), Held(), THERE, HandleFor("s"), CloseVote)
    ensures TakenSince(run, 9, CloseVote)
  {
    hide Exec, HandleFor, BothVoted, Taken, NewRoom, Takes, RosterOf;
    assert run[..|pre|] == pre && run[..|run|] == run;
    assert StepTakes(s0, run[|pre|], 9, CloseVote);
    assert SawAt(s0, 9, CloseVote).Some? && SawAt(s, 9, CloseVote).Some?;
    assert forall m :: |pre| <= m <= |run| ==> Exec(INIT, run[..m]) == if m == |pre| then s0 else s;
    assert TakenAt(run, |pre|, 9, CloseVote);
  }

  lemma XVoteThere()
    ensures HandleFor("x") in Taken().participants && HandleFor("x") in BothVoted().participants
    ensures var p := Taken().participants[HandleFor("x")]; p.wantsClose.Some? && p.wantsClose.value.castBy == 7
  {
    hide HandleFor, Crowd;
    CrowdRows();
  }

  lemma NowItIsProposed()
    ensures CloseProposed(RosterOf(Taken(), THERE), HandleFor("s"), LATER)
    ensures forall h :: LiveVoter(Taken(), THERE, HandleFor("s"), LATER, h) ==> h == HandleFor("x")
    ensures HandleFor("x") in BothVoted().participants && IsLive(BothVoted().participants[HandleFor("x")], LATER)
    ensures HandleFor("x") in RosterOf(BothVoted(), THERE)
  {
    hide HandleFor, BothVoted, Taken, Joined, Opened;
    TheySit();
    XVoteThere();
    var roster := RosterOf(Taken(), THERE);
    assert HandleFor("x") in roster && roster[HandleFor("x")].wantsClose.Some?;
  }

  lemma SameRow()
    requires HandleFor("s") in BothVoted().participants
    ensures HandleFor("s") in Taken().participants
    ensures Taken().participants[HandleFor("s")].row == BothVoted().participants[HandleFor("s")].row
  {
    hide HandleFor, BothVoted;
  }

  lemma MissedSince(s: State)
    requires Bereft(s)
    ensures Misses(s, 9, LATER)
  {
    hide HandleFor, BothVoted, Taken, NewRoom, RosterOf, CloseProposed;
    NowItIsProposed();
    SameRow();
  }

  lemma NotLate(s: State, h: Handle)
    requires Bereft(s) && LiveVoter(s.db, THERE, HandleFor("s"), LATER, h)
    ensures !Late(s, SeenVotes(), THERE, HandleFor("s"), h)
  {
    hide HandleFor, BothVoted, Taken, NewRoom;
    NowItIsProposed();
    XVoteThere();
  }

  /** A send is held up between its insert and its drops; its sender is pruned, joins the other room, votes there and
      falls asleep, as nobody asks anything new of it. Then the send drops the vote it has there: now it should yield to
      the other's standing vote and is not told, for this reason and for no other. */
  lemma VoteIsTakenAway() returns (run: seq<Action>, w: RequestId)
    ensures TakenSince(run, w, CloseVote)
    ensures var s := Exec(INIT, run);
      && Misses(s, w, LATER)
      && var me, room, saw := s.requests[w].pc.me, s.requests[w].call.room, s.requests[w].pc.stage.sawClose;
         forall h :: LiveVoter(s.db, room, me, LATER, h) ==> !Late(s, saw, room, me, h)
  {
    hide TakenSince, HandleFor, BothVoted, Misses, Late, Exec, NewRoom;
    var s;
    run, s := VoteDropped();
    w := 9;
    MissedSince(s);
    forall h | LiveVoter(s.db, THERE, HandleFor("s"), LATER, h)
      ensures !Late(s, SeenVotes(), THERE, HandleFor("s"), h)
    {
      NotLate(s, h);
    }
  }
}
