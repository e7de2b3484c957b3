/** No room is closed without its quorum: every close that nobody forced goes back to a moment of the run at which
    enough live participants wanted it. */
module CloseSafety {
  import opened Wrappers
  import opened Lifecycle
  import opened Tables
  import opened Protocol
  import opened Evolution
  import opened Effects

  ghost predicate Quorate(quorum: CloseQuorum, c: Sighting) {
    |CloseVoters(c.roster, c.at)| >= quorum.Needed(|Live(c.roster, c.at)|)
  }

  /** After n steps of the run a close that has cast its vote was about to count, and the room's roster was this one. */
  ghost predicate CountedAt(run: seq<Action>, n: nat, id: RequestId, room: RoomId, c: Sighting) {
    && n <= |run|
    && var s := Exec(INIT, run[..n]);
    && id in s.requests && s.requests[id].call.room == room
    && s.requests[id].pc.Closing? && s.requests[id].pc.close == CountVotes(c.at)
    && RosterOf(s.db, room) == c.roster
  }

  /** The request that closes the room has a reason of its own: it was forced by its caller, or it is the one that
      counted, after its own vote, a roster in which the votes met the quorum. */
  ghost predicate Justified(run: seq<Action>, s: State, room: RoomId, cause: Cause, mover: RequestId) {
    && room in s.db.rooms && mover < |s.calls| && s.calls[mover].room == room
    && match cause
       case Routine => false
       case Forced => s.calls[mover].op == Close(true)
       case Consensus(c) => Quorate(s.db.rooms[room].quorum, c) && exists n :: CountedAt(run, n, mover, room, c)
  }

  ghost predicate EventJustified(run: seq<Action>, s: State, e: Event) {
    e.to == Closed ==> Justified(run, s, e.room, e.cause, e.mover)
  }

  ghost predicate RequestJustified(run: seq<Action>, s: State, id: RequestId, r: Request) {
    match r.pc
    case Closing(_, _, SwapClosed(_, _, cause)) => Justified(run, s, r.call.room, cause, id)
    case Closing(_, _, Recheck(cause)) => Justified(run, s, r.call.room, cause, id)
    case _ => true
  }

  ghost predicate ClosesJustified(run: seq<Action>, s: State) {
    && (forall i :: 0 <= i < |s.db.events| ==> EventJustified(run, s, s.db.events[i]))
    && (forall id :: id in s.requests ==> RequestJustified(run, s, id, s.requests[id]))
    && (forall id :: id in s.unannounced ==>
          id < |s.calls| && Justified(run, s, s.calls[id].room, Consensus(s.unannounced[id]), id))
  }

  lemma CountedStays(run: seq<Action>, a: Action, n: nat, id: RequestId, room: RoomId, c: Sighting)
    requires CountedAt(run, n, id, room, c)
    ensures CountedAt(run + [a], n, id, room, c)
  {
    assert (run + [a])[..n] == run[..n];
  }

  lemma JustifiedStays(run: seq<Action>, s: State, a: Action, s': State, room: RoomId, cause: Cause, mover: RequestId)
    requires Justified(run, s, room, cause, mover) && Evolves(s.db, s'.db) && s.calls <= s'.calls
    ensures Justified(run + [a], s', room, cause, mover)
  {
    match cause
    case Consensus(c) =>
      var n :| CountedAt(run, n, mover, room, c);
      hide Quorate, CountedAt;
      CountedStays(run, a, n, mover, room, c);
    case _ =>
  }

  /** Where the reason of a close comes from. */
  lemma AdvanceReason(d: Db, id: RequestId, r: Request, pinged: bool, t: Tick)
    requires Fits(r.call, r.pc) && SnapshotOk(d, r)
    ensures var next := Advance(d, id, r, pinged, t).1;
      && (next.Goto? && next.pc.Closing? && next.pc.close.SwapClosed? ==>
            var cause := next.pc.close.cause;
            || (cause == Forced && r.call.op == Close(true))
            || (&& r.pc.Closing? && r.pc.close.CountVotes?
                && cause == Consensus(Sighting(RosterOf(d, r.call.room), r.pc.close.now))
                && Quorate(r.pc.room.quorum, cause.sighting)))
      && (next.Goto? && next.pc.Closing? && next.pc.close.Recheck? ==>
            r.pc.Closing? && r.pc.close.SwapClosed? && next.pc.close.cause == r.pc.close.cause)
      && (next.Conflict? ==>
            && r.pc.Closing?
            && (|| (r.pc.close.Recheck? && r.pc.close.cause == Consensus(next.counted))
                || (&& r.pc.close.CountVotes?
                    && next.counted == Sighting(RosterOf(d, r.call.room), r.pc.close.now)
                    && Quorate(r.pc.room.quorum, next.counted))))
  {
    hide TryExtend;
  }

  /** Everything the step adds was justified already when it was taken. */
  ghost predicate StepReasons(run: seq<Action>, s: State, id: RequestId, d': Db, next: Next)
    requires id in s.requests
  {
    var call := s.requests[id].call;
    && (next.Goto? ==> RequestJustified(run, s, id, Request(call, next.pc)))
    && (next.Conflict? ==> Justified(run, s, call.room, Consensus(next.counted), id))
    && (d'.events != s.db.events ==> exists e :: d'.events == s.db.events + [e] && EventJustified(run, s, e))
  }

  lemma CountingJustifies(run: seq<Action>, id: RequestId)
    requires WellFormed(Exec(INIT, run)) && id in Exec(INIT, run).requests
    requires var r := Exec(INIT, run).requests[id];
      r.pc.Closing? && r.pc.close.CountVotes? && r.call.room in Exec(INIT, run).db.rooms
    ensures var s := Exec(INIT, run);
      var r := s.requests[id];
      var c := Sighting(RosterOf(s.db, r.call.room), r.pc.close.now);
      Quorate(s.db.rooms[r.call.room].quorum, c) ==> Justified(run, s, r.call.room, Consensus(c), id)
  {
    var s := Exec(INIT, run);
    var r := s.requests[id];
    assert RequestOk(s, id) && run[..|run|] == run;
    assert CountedAt(run, |run|, id, r.call.room, Sighting(RosterOf(s.db, r.call.room), r.pc.close.now));
    hide Quorate;
  }

  lemma RunReasons(run: seq<Action>, s: State, id: RequestId, t: Tick)
    requires s == Exec(INIT, run) && WellFormed(s) && ClosesJustified(run, s) && id in s.requests
    ensures var (d', next) := Advance(s.db, id, s.requests[id], id in s.pings, t); StepReasons(run, s, id, d', next)
  {
    assert RequestOk(s, id);
    var r, pinged := s.requests[id], id in s.pings;
    var (d', next) := Advance(s.db, id, r, pinged, t);
    AdvanceReason(s.db, id, r, pinged, t);
    if r.pc.Closing? && r.pc.close.CountVotes? { CountingJustifies(run, id); }
    assert RequestJustified(run, s, id, r);
    assert r.call.op == Close(true) && r.call.room in s.db.rooms ==> Justified(run, s, r.call.room, Forced, id);
    AdvanceMoves(s.db, id, r, pinged, t);
    AdvanceCarries(s.db, id, r, pinged, t);
    hide Advance, WellFormed, Exec, Quorate, CountedAt, ClosesJustified, Lawful;
    if d'.events != s.db.events {
      var from, to, now, cause :| MovedBy(s.db, id, r, d', next, from, to, now, cause);
      var e := Event(r.call.room, KindOf(to), from, to, now, cause, id);
      assert d'.events == s.db.events + [e] && EventJustified(run, s, e);
    }
  }

  lemma LiftRequests(run: seq<Action>, s: State, id: RequestId, t: Tick, d': Db, next: Next)
    requires ClosesJustified(run, s) && id in s.requests && StepReasons(run, s, id, d', next) && Evolves(s.db, d')
    ensures var s' := Apply(s, id, d', next, t);
      forall i :: i in s'.requests ==> RequestJustified(run + [Run(id, t)], s', i, s'.requests[i])
  {
    var s', a := Apply(s, id, d', next, t), Run(id, t);
    hide Justified, RequestJustified, EventJustified, Evolves;
    forall i | i in s'.requests ensures RequestJustified(run + [a], s', i, s'.requests[i]) {
      assert i != id ==> s'.requests[i] == s.requests[i] && RequestJustified(run, s, i, s.requests[i]);
      LiftRequest(run, s, a, s', i, s'.requests[i]);
    }
  }

  lemma LiftEvents(run: seq<Action>, s: State, id: RequestId, t: Tick, d': Db, next: Next)
    requires ClosesJustified(run, s) && id in s.requests && StepReasons(run, s, id, d', next) && Evolves(s.db, d')
    ensures forall i ::
        0 <= i < |d'.events| ==> EventJustified(run + [Run(id, t)], Apply(s, id, d', next, t), d'.events[i])
  {
    var s', a := Apply(s, id, d', next, t), Run(id, t);
    hide Justified, RequestJustified, EventJustified, Evolves;
    forall i | 0 <= i < |d'.events| ensures EventJustified(run + [a], s', d'.events[i]) {
      assert i < |s.db.events| ==> EventJustified(run, s, s.db.events[i]);
      LiftEvent(run, s, a, s', d'.events[i]);
    }
  }

  lemma Lift(run: seq<Action>, s: State, id: RequestId, t: Tick, d': Db, next: Next)
    requires ClosesJustified(run, s) && id in s.requests && id < |s.calls| && s.calls[id] == s.requests[id].call
    requires StepReasons(run, s, id, d', next) && Evolves(s.db, d')
    ensures ClosesJustified(run + [Run(id, t)], Apply(s, id, d', next, t))
  {
    var s', a := Apply(s, id, d', next, t), Run(id, t);
    LiftRequests(run, s, id, t, d', next);
    LiftEvents(run, s, id, t, d', next);
    LiftConflicts(run, s, id, t, d', next);
    assert s'.db == d';
    hide Justified, RequestJustified, EventJustified, Evolves, Apply, StepReasons;
  }

  lemma LiftConflicts(run: seq<Action>, s: State, id: RequestId, t: Tick, d': Db, next: Next)
    requires ClosesJustified(run, s) && id in s.requests && id < |s.calls| && s.calls[id] == s.requests[id].call
    requires StepReasons(run, s, id, d', next) && Evolves(s.db, d')
    ensures var s' := Apply(s, id, d', next, t);
      forall i :: i in s'.unannounced ==>
        i < |s'.calls| && Justified(run + [Run(id, t)], s', s'.calls[i].room, Consensus(s'.unannounced[i]), i)
  {
    var s', a := Apply(s, id, d', next, t), Run(id, t);
    hide Justified, RequestJustified, EventJustified, Evolves;
    forall i | i in s'.unannounced
      ensures i < |s'.calls| && Justified(run + [a], s', s'.calls[i].room, Consensus(s'.unannounced[i]), i)
    {
      JustifiedStays(run, s, a, s', s.calls[i].room, Consensus(s'.unannounced[i]), i);
    }
  }

  lemma LiftQuiet(run: seq<Action>, s: State, a: Action, s': State)
    requires ClosesJustified(run, s) && Evolves(s.db, s'.db) && s.calls <= s'.calls
    requires s'.db.events == s.db.events && s'.unannounced == s.unannounced
    requires forall i :: i in s'.requests ==>
      s'.requests[i].pc.LoadRoom? || (i in s.requests && s'.requests[i] == s.requests[i])
    ensures ClosesJustified(run + [a], s')
  {
    forall i | i in s'.requests && !s'.requests[i].pc.LoadRoom?
      ensures RequestJustified(run + [a], s', i, s'.requests[i])
    {
      assert RequestJustified(run, s, i, s.requests[i]);
      LiftRequest(run, s, a, s', i, s.requests[i]);
    }
    forall i | 0 <= i < |s'.db.events| ensures EventJustified(run + [a], s', s'.db.events[i]) {
      assert EventJustified(run, s, s.db.events[i]);
      LiftEvent(run, s, a, s', s.db.events[i]);
    }
    hide Evolves;
    forall i | i in s.unannounced
      ensures i < |s'.calls| && Justified(run + [a], s', s'.calls[i].room, Consensus(s'.unannounced[i]), i)
    {
      JustifiedStays(run, s, a, s', s.calls[i].room, Consensus(s.unannounced[i]), i);
    }
  }

  lemma LiftRequest(run: seq<Action>, s: State, a: Action, s': State, id: RequestId, r: Request)
    requires RequestJustified(run, s, id, r) && Evolves(s.db, s'.db) && s.calls <= s'.calls
    ensures RequestJustified(run + [a], s', id, r)
  {
    match r.pc
    case Closing(_, _, SwapClosed(_, _, cause)) => JustifiedStays(run, s, a, s', r.call.room, cause, id);
    case Closing(_, _, Recheck(cause)) => JustifiedStays(run, s, a, s', r.call.room, cause, id);
    case _ =>
  }

  lemma LiftEvent(run: seq<Action>, s: State, a: Action, s': State, e: Event)
    requires EventJustified(run, s, e) && Evolves(s.db, s'.db) && s.calls <= s'.calls
    ensures EventJustified(run + [a], s', e)
  {
    if e.to == Closed { JustifiedStays(run, s, a, s', e.room, e.cause, e.mover); }
  }

  lemma RunJustified(run: seq<Action>, s: State, id: RequestId, t: Tick)
    requires s == Exec(INIT, run) && WellFormed(s) && ClosesJustified(run, s) && id in s.requests
    ensures ClosesJustified(run + [Run(id, t)], Step(s, Run(id, t)))
  {
    hide Exec;
    assert RequestOk(s, id);
    var (d', next) := Advance(s.db, id, s.requests[id], id in s.pings, t);
    RunReasons(run, s, id, t);
    AdvanceKeeps(s.db, id, s.requests[id], id in s.pings, t);
    hide Advance, StepReasons, ClosesJustified, WellFormed, Evolves;
    Lift(run, s, id, t, d', next);
  }

  lemma StepJustified(run: seq<Action>, a: Action)
    requires WellFormed(Exec(INIT, run)) && ClosesJustified(run, Exec(INIT, run))
    ensures ClosesJustified(run + [a], Step(Exec(INIT, run), a))
  {
    var s := Exec(INIT, run);
    hide Exec, Advance, Evolves, WellFormed, ClosesJustified;
    if a.Run? && a.id in s.requests {
      RunJustified(run, s, a.id, a.tick);
    } else {
      StepKeeps(s, a);
      LiftQuiet(run, s, a, Step(s, a));
    }
  }

  /** In every run, every entry of a room into closed was made by a request for that room which was either a forced
      close or had itself read, at an earlier moment and after its own vote, a roster in which the standing votes of
      live participants met the quorum. The same holds of every close still on its way and of every close turned
      away. */
  lemma {:induction false} ClosesAreJustified(run: seq<Action>)
    ensures ClosesJustified(run, Exec(INIT, run))
  {
    if run != [] {
      var shorter, a := run[..|run| - 1], run[|run| - 1];
      RunKeeps(INIT, shorter);
      ClosesAreJustified(shorter);
      StepJustified(shorter, a);
      assert shorter + [a] == run;
    }
  }

  lemma SubsetOfSameSize<T>(a: set<T>, b: set<T>)
    requires a <= b && |a| >= |b|
    ensures a == b
  {
    assert b == a + (b - a);
  }

  /** Under the default quorum a justified close has the vote of each and every live participant, and of at least
      one. */
  lemma AllMeansEveryone(c: Sighting)
    requires Quorate(All, c)
    ensures Live(c.roster, c.at) != {}
    ensures forall h :: h in c.roster && IsLive(c.roster[h], c.at) ==> c.roster[h].wantsClose.Some?
  {
    var live, voters := Live(c.roster, c.at), CloseVoters(c.roster, c.at);
    assert voters <= live;
    assert |voters| >= 1;
    var h :| h in voters;
    SubsetOfSameSize(voters, live);
    assert forall h :: h in c.roster && IsLive(c.roster[h], c.at) ==> h in live;
    assert forall h :: h in voters ==> c.roster[h].wantsClose.Some?;
  }

  ghost predicate AllQuorums(d: Db) {
    forall r :: r in d.rooms ==> d.rooms[r].quorum == All
  }

  lemma StepQuorums(s: State, a: Action)
    requires WellFormed(s) && AllQuorums(s.db)
    ensures AllQuorums(Step(s, a).db)
  {
    if a.Run? && a.id in s.requests {
      assert RequestOk(s, a.id);
      var pinged := a.id in s.pings;
      AdvanceKeeps(s.db, a.id, s.requests[a.id], pinged, a.tick);
      AdvanceRooms(s.db, a.id, s.requests[a.id], pinged, a.tick);
    }
    hide Advance, WellFormed;
  }

  /** No step opens a room or takes one away. */
  lemma AdvanceRooms(d: Db, id: RequestId, r: Request, pinged: bool, t: Tick)
    requires Fits(r.call, r.pc) && Lawful(r.pc)
    ensures Advance(d, id, r, pinged, t).0.rooms.Keys == d.rooms.Keys
  {
    AdvanceMoves(d, id, r, pinged, t);
    hide Advance;
  }

  /** Rooms are opened with the default quorum, and it never changes. */
  lemma {:induction false} AlwaysAll(run: seq<Action>)
    ensures AllQuorums(Exec(INIT, run).db)
  {
    if run != [] {
      RunKeeps(INIT, run[..|run| - 1]);
      AlwaysAll(run[..|run| - 1]);
      StepQuorums(Exec(INIT, run[..|run| - 1]), run[|run| - 1]);
    }
  }

  /** A close turned away with a conflict had seen everybody agree as well: nobody live was still to be asked when it
      counted. */
  lemma ConflictHadEveryone(run: seq<Action>, id: RequestId)
    requires id in Exec(INIT, run).unannounced
    ensures var c := Exec(INIT, run).unannounced[id];
      forall h :: h in c.roster && IsLive(c.roster[h], c.at) ==> c.roster[h].wantsClose.Some?
  {
    ClosesAreJustified(run);
    AlwaysAll(run);
    var s := Exec(INIT, run);
    hide Exec, Quorate, CountedAt;
    assert Justified(run, s, s.calls[id].room, Consensus(s.unannounced[id]), id);
    AllMeansEveryone(s.unannounced[id]);
  }
}
