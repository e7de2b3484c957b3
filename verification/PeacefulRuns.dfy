/** Runs in which people only join, wait and close: there the grants of a stretch hold by themselves. */
module PeacefulRuns {
  import opened Wrappers
  import opened Lifecycle
  import opened Tables
  import opened Protocol
  import opened Evolution
  import opened Effects
  import opened Consensus
  import Joining

  predicate Peaceful(calls: seq<Call>) {
    forall call <- calls :: call.op.Join? || call.op.Wait? || call.op == Close(false)
  }

  ghost predicate OpenOrClosed(d: Db) {
    forall r :: r in d.rooms ==> d.rooms[r].state.Active? || d.rooms[r].state.Closed?
  }

  /** Rooms and rows stay. */
  ghost predicate NothingGoes(d: Db, d': Db) {
    && d.rooms.Keys <= d'.rooms.Keys
    && forall h :: h in d.participants ==>
         && h in d'.participants && d'.participants[h].room == d.participants[h].room
         && d'.participants[h].instance == d.participants[h].instance
  }

  lemma RoomsStayCalm(d: Db, id: RequestId, r: Request, pinged: bool, t: Tick)
    requires Fits(r.call, r.pc) && Lawful(r.pc) && Peaceful([r.call]) && OpenOrClosed(d)
    ensures var d' := Advance(d, id, r, pinged, t).0; OpenOrClosed(d') && d'.rooms.Keys == d.rooms.Keys
  {
    hide WaitNext, WaiterNext, JoinNext, LoadStep, Found, RosterOf, CloseVoters, Live;
    assert r.call in [r.call];
    if Quiet(r.pc) { AdvanceQuiet(d, id, r, pinged, t); }
  }

  lemma RowsStayCalm(d: Db, id: RequestId, r: Request, pinged: bool, t: Tick)
    requires Fits(r.call, r.pc) && Peaceful([r.call])
    ensures var d' := Advance(d, id, r, pinged, t).0; d.rooms.Keys <= d'.rooms.Keys ==> NothingGoes(d, d')
  {
    hide Advance;
    assert r.call in [r.call];
    var d' := Advance(d, id, r, pinged, t).0;
    AdvanceRows(d, id, r, pinged, t);
    forall h | h in d.participants
      ensures h in d'.participants && d'.participants[h].room == d.participants[h].room
      ensures d'.participants[h].instance == d.participants[h].instance
    {
      assert h !in d'.participants ==> RowRemoved(d, r, t, h);
      assert RowKept(d, id, r, t, h, d'.participants[h]);
    }
  }

  lemma StepCalm(s: State, a: Action)
    requires WellFormed(s) && Peaceful(s.calls) && OpenOrClosed(s.db)
    ensures OpenOrClosed(Step(s, a).db) && NothingGoes(s.db, Step(s, a).db) && s.calls <= Step(s, a).calls
  {
    hide Advance, Lawful, Fits, SnapshotOk, RowsNumbered, MessagesPlaced;
    match a
    case Run(id, t) =>
      if id in s.requests {
        assert RequestOk(s, id) && s.calls[id] in s.calls;
        RoomsStayCalm(s.db, id, s.requests[id], id in s.pings, t);
        RowsStayCalm(s.db, id, s.requests[id], id in s.pings, t);
      }
    case _ =>
  }

  lemma CallsGrow(s: State, a: Action)
    ensures s.calls <= Step(s, a).calls
  {
    hide Advance;
  }

  lemma {:induction false} CallsBefore(run: seq<Action>, k: nat)
    requires k <= |run|
    ensures Exec(INIT, run[..k]).calls <= Exec(INIT, run).calls
  {
    hide Step;
    if k == |run| {
      assert run[..k] == run;
    } else {
      CallsBefore(run[..|run| - 1], k);
      assert run[..|run| - 1][..k] == run[..k];
      CallsGrow(Exec(INIT, run[..|run| - 1]), run[|run| - 1]);
    }
  }

  /** Between two moments of a peaceful run nothing goes, and at both rooms are active or closed. */
  lemma {:induction false} AlwaysCalm(run: seq<Action>, k: nat)
    requires k <= |run| && Peaceful(Exec(INIT, run).calls)
    ensures OpenOrClosed(Exec(INIT, run).db) && NothingGoes(Exec(INIT, run[..k]).db, Exec(INIT, run).db)
  {
    hide Step, OpenOrClosed, NothingGoes, WellFormed;
    if k == |run| { assert run[..k] == run; }
    if run == [] {
      assert OpenOrClosed(INIT.db) by { NoRooms(); }
      StaysItself(Exec(INIT, run).db);
    } else {
      var shorter, a := run[..|run| - 1], run[|run| - 1];
      var s := Exec(INIT, shorter);
      CallsGrow(s, a);
      assert Peaceful(s.calls) by { PeacefulBefore(s.calls, Exec(INIT, run).calls); }
      AlwaysCalm(shorter, if k < |run| then k else |run| - 1);
      InitIsWellFormed();
      RunKeeps(INIT, shorter);
      StepCalm(s, a);
      if k < |run| {
        assert run[..k] == shorter[..k];
        GoesOnStaying(Exec(INIT, run[..k]).db, s.db, Exec(INIT, run).db);
      } else {
        StaysItself(Exec(INIT, run).db);
      }
    }
  }

  lemma NoRooms()
    ensures OpenOrClosed(INIT.db)
  {
  }

  lemma StaysItself(d: Db)
    ensures NothingGoes(d, d)
  {
  }

  lemma PeacefulBefore(calls: seq<Call>, longer: seq<Call>)
    requires calls <= longer && Peaceful(longer)
    ensures Peaceful(calls)
  {
    assert forall call <- calls :: call in longer;
  }

  lemma GoesOnStaying(d: Db, d1: Db, d2: Db)
    requires NothingGoes(d, d1) && NothingGoes(d1, d2)
    ensures NothingGoes(d, d2)
  {
  }

  // ---- what is granted ----

  /** The last close of `h`, if it has begun, is one, by the instance of a row `h` that was in the room before. */
  ghost predicate ClosesByInstance(c: Stretch, run: seq<Action>, h: Handle)
    requires h in c.last
  {
    var f, calls := c.last[h], Exec(INIT, run).calls;
    f < |calls| ==>
      && calls[f].op == Close(false) && calls[f].room == c.room
      && exists m :: 0 <= m <= |run| && InRoomAt(run, m, f, c.room, calls[f].instance, h)
  }

  ghost predicate InRoomAt(run: seq<Action>, m: nat, f: RequestId, room: RoomId, instance: string, h: Handle)
    requires m <= |run|
  {
    var s := Exec(INIT, run[..m]);
    |s.calls| <= f && HasInstance(s.db, room, instance, h)
  }

  /** A request that has begun at `n` and not at `m` has begun in between. */
  lemma BegunBetween(run: seq<Action>, n: nat, m: nat, f: RequestId)
    requires n <= |run| && m <= |run|
    requires |Exec(INIT, run[..m]).calls| <= f < |Exec(INIT, run[..n]).calls|
    ensures m <= n
  {
    hide Exec;
    if n < m {
      assert run[..m][..n] == run[..n];
      CallsBefore(run[..m], n);
    }
  }

  /** What holds of a run holds of every part of it. */
  lemma ClosesInPart(c: Stretch, run: seq<Action>, n: nat, h: Handle)
    requires n <= |run| && h in c.last && ClosesByInstance(c, run, h)
    ensures ClosesByInstance(c, run[..n], h)
  {
    hide Exec;
    CallsBefore(run, n);
    var f, part, whole := c.last[h], Exec(INIT, run[..n]).calls, Exec(INIT, run).calls;
    if f < |part| {
      assert part[f] == whole[f];
      var m :| 0 <= m <= |run| && InRoomAt(run, m, f, c.room, whole[f].instance, h);
      BegunBetween(run, n, m, f);
      assert run[..n][..m] == run[..m];
      assert InRoomAt(run[..n], m, f, c.room, part[f].instance, h);
    }
  }

  lemma NobodySends(s: State, h: Handle)
    requires WellFormed(s) && Peaceful(s.calls)
    ensures forall id :: id in s.requests ==> !StillRetracts(s.requests[id], h)
  {
    hide Lawful, SnapshotOk;
    forall id | id in s.requests ensures !StillRetracts(s.requests[id], h) {
      assert RequestOk(s, id) && s.calls[id] in s.calls;
    }
  }

  lemma RowStandsFor(run: seq<Action>, m: nat, f: RequestId, room: RoomId, instance: string, h: Handle)
    requires m <= |run| && Peaceful(Exec(INIT, run).calls) && InRoomAt(run, m, f, room, instance, h)
    ensures var d := Exec(INIT, run).db; HasHandle(d, room, h) && StandsFor(d, room, instance, h)
  {
    hide Exec, OpenOrClosed, Peaceful, ByInstance;
    AlwaysCalm(run, m);
    Joining.OneRowPerInstance(run);
    TheOnlyRow(Exec(INIT, run).db, room, instance, h);
  }

  lemma TheOnlyRow(d: Db, room: RoomId, instance: string, h: Handle)
    requires RowsUnique(d) && HasInstance(d, room, instance, h)
    ensures ByInstance(d, room, instance) == Some(h)
  {
    assert HasInstance(d, room, instance, ByInstance(d, room, instance).value);
  }

  lemma GrantedHere(c: Stretch, run: seq<Action>)
    requires Peaceful(Exec(INIT, run).calls) && c.last.Keys == c.present && c.room in Exec(INIT, run).db.rooms
    requires forall h :: h in c.present ==> ClosesByInstance(c, run, h)
    ensures Granted(c, Exec(INIT, run))
  {
    hide Exec, HasVoted, StandsFor, StillRetracts, NothingGoes, Peaceful, WellFormed;
    var s := Exec(INIT, run);
    AlwaysCalm(run, 0);
    InitIsWellFormed();
    RunKeeps(INIT, run);
    forall h | h in c.present ensures EndsWithClose(c, s, h) {
      NobodySends(s, h);
      assert ClosesByInstance(c, run, h);
      var f := c.last[h];
      if f < |s.calls| {
        var m :| 0 <= m <= |run| && InRoomAt(run, m, f, c.room, s.calls[f].instance, h);
        RowStandsFor(run, m, f, c.room, s.calls[f].instance, h);
      }
    }
  }

  lemma {:induction false} ExecInTwo(run: seq<Action>, more: seq<Action>)
    ensures Exec(Exec(INIT, run), more) == Exec(INIT, run + more)
  {
    hide Step;
    if more == [] {
      assert run + more == run;
    } else {
      var shorter := more[..|more| - 1];
      ExecInTwo(run, shorter);
      assert (run + more)[..|run + more| - 1] == run + shorter;
    }
  }

  lemma PartIsGranted(c: Stretch, run: seq<Action>, k: nat, n: nat)
    requires k <= n <= |run| && Peaceful(Exec(INIT, run).calls) && c.room in Exec(INIT, run[..k]).db.rooms
    requires c.last.Keys == c.present && forall h :: h in c.present ==> ClosesByInstance(c, run, h)
    ensures Granted(c, Exec(INIT, run[..n]))
  {
    hide Exec, Granted, Peaceful, ClosesByInstance, OpenOrClosed;
    CallsBefore(run, n);
    PeacefulBefore(Exec(INIT, run[..n]).calls, Exec(INIT, run).calls);
    AlwaysCalm(run[..n], k);
    assert run[..n][..k] == run[..k];
    forall h | h in c.present ensures ClosesByInstance(c, run[..n], h) { ClosesInPart(c, run, n, h); }
    GrantedHere(c, run[..n]);
  }

  // ---- who is live when all have voted ----

  /** From this moment on, when a last close counts and all have voted, only those present are live. */
  ghost predicate CountsGranted(c: Stretch, run: seq<Action>, k: nat)
    requires c.last.Keys == c.present
  {
    forall n :: k <= n < |run| ==> GrantedStep(c, Exec(INIT, run[..n]), run[n])
  }

  lemma VotedStays(c: Stretch, s: State, a: Action, h: Handle)
    requires h in c.last && HasVoted(c, s, h)
    ensures HasVoted(c, Step(s, a), h)
  {
    hide WaitNext, WaiterNext, JoinNext, LoadStep, Found, RosterOf, CloseVoters, Live;
  }

  lemma {:induction false} VotedLater(c: Stretch, run: seq<Action>, k: nat, h: Handle)
    requires k <= |run| && h in c.last && HasVoted(c, Exec(INIT, run[..k]), h)
    ensures HasVoted(c, Exec(INIT, run), h)
  {
    hide Step, HasVoted;
    if k == |run| {
      assert run[..k] == run;
    } else {
      assert run[..|run| - 1][..k] == run[..k];
      VotedLater(c, run[..|run| - 1], k, h);
      VotedStays(c, Exec(INIT, run[..|run| - 1]), run[|run| - 1], h);
    }
  }

  /** As long as one of them has not voted, nothing is asked. */
  lemma NotAllVoted(c: Stretch, run: seq<Action>, k: nat, m: nat, h: Handle)
    requires k <= m <= |run| && c.last.Keys == c.present && h in c.present
    requires !HasVoted(c, Exec(INIT, run[..m]), h) && CountsGranted(c, run, m)
    ensures CountsGranted(c, run, k)
  {
    hide Exec, HasVoted, OnlyPresentLive;
    forall n | k <= n < |run| ensures GrantedStep(c, Exec(INIT, run[..n]), run[n]) {
      if n < m && HasVoted(c, Exec(INIT, run[..n]), h) {
        assert run[..m][..n] == run[..n];
        VotedLater(c, run[..m], n, h);
      }
    }
  }

  // ---- the stretch ----

  lemma StretchOf(run: seq<Action>, k: nat)
    requires k <= |run|
    ensures forall n :: 0 <= n <= |run| - k ==> Exec(Exec(INIT, run[..k]), run[k..][..n]) == Exec(INIT, run[..k + n])
  {
    hide Exec;
    forall n | 0 <= n <= |run| - k ensures Exec(Exec(INIT, run[..k]), run[k..][..n]) == Exec(INIT, run[..k + n]) {
      ExecInTwo(run[..k], run[k..][..n]);
      assert run[..k] + run[k..][..n] == run[..k + n];
    }
  }

  /** In a run in which people only join, wait and close, all that a stretch asks for beside its opening comes to this:
      whose closes are the last, by the instances of rows that were in the room before, and who is live when all have
      voted. */
  lemma PeacefulStretch(c: Stretch, run: seq<Action>, k: nat)
    requires k <= |run| && Peaceful(Exec(INIT, run).calls) && c.room in Exec(INIT, run[..k]).db.rooms
    requires Opening(c, Exec(INIT, run[..k])) && CountsGranted(c, run, k)
    requires forall h :: h in c.present ==> ClosesByInstance(c, run, h)
    ensures IsStretch(c, Exec(INIT, run[..k]), run[k..])
  {
    hide Exec, Granted, GrantedStep, Peaceful, ClosesByInstance, Underway, HasVoted, HasCounted, VoteStands;
    var s, more := Exec(INIT, run[..k]), run[k..];
    StretchOf(run, k);
    forall n | 0 <= n <= |more| ensures Granted(c, Exec(s, more[..n])) { PartIsGranted(c, run, k, k + n); }
    forall n | 0 <= n < |more| ensures GrantedStep(c, Exec(s, more[..n]), more[n]) {
      assert GrantedStep(c, Exec(INIT, run[..k + n]), run[k + n]);
    }
  }

  /** So there consensus close converges with nothing assumed of the room's state, of its rows or of sends. */
  lemma PeacefulCloseConverges(c: Stretch, run: seq<Action>, k: nat)
    requires k <= |run| && Peaceful(Exec(INIT, run).calls) && c.room in Exec(INIT, run[..k]).db.rooms
    requires Opening(c, Exec(INIT, run[..k])) && CountsGranted(c, run, k)
    requires forall h :: h in c.present ==> ClosesByInstance(c, run, h)
    requires Answered(c, Exec(INIT, run))
    ensures var d := Exec(INIT, run).db; c.room in d.rooms && d.rooms[c.room].state == Closed
  {
    hide Exec, Opening, CountsGranted, Peaceful, ClosesByInstance, Answered, IsStretch;
    PeacefulStretch(c, run, k);
    ExecInTwo(run[..k], run[k..]);
    assert run[..k] + run[k..] == run;
    ConsensusCloseConverges(c, run[..k], run[k..]);
  }
}
