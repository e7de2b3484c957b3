/** Joining is get-or-create, and what a join shows never overlaps what a long-poll can still deliver. */
module Joining {
  import opened Wrappers
  import opened Lifecycle
  import opened Tables
  import opened Protocol
  import opened Evolution
  import opened Effects

  // ---- one row per instance, and every row told apart ----

  /** No two rows of a room for one instance, and every row from a join that was begun. */
  ghost predicate RowsDistinct(d: Db, begun: nat) {
    && RowsUnique(d)
    && (forall h :: h in d.participants ==> d.participants[h].creator < begun)
  }

  ghost predicate SameIdentity(p: Participant, p': Participant) {
    p'.room == p.room && p'.instance == p.instance && p'.creator == p.creator
  }

  /** A new row: the join found nobody with its instance. */
  ghost predicate InsertedBy(d: Db, id: RequestId, r: Request, h: Handle, p': Participant) {
    && r.pc.Joining? && r.pc.join.InsertRow? && h == r.pc.join.handle
    && p'.room == r.call.room && p'.instance == r.call.instance && p'.creator == id
    && forall g :: !HasInstance(d, r.call.room, r.call.instance, g)
  }

  lemma RowIdentities(d: Db, id: RequestId, r: Request, pinged: bool, t: Tick)
    requires Fits(r.call, r.pc)
    ensures var d' := Advance(d, id, r, pinged, t).0;
      && (forall h ::
          h in d.participants && h in d'.participants ==> SameIdentity(d.participants[h], d'.participants[h]))
      && (forall h :: h in d'.participants && h !in d.participants ==> InsertedBy(d, id, r, h, d'.participants[h]))
  {
    AdvanceRows(d, id, r, pinged, t);
    var d' := Advance(d, id, r, pinged, t).0;
    hide Advance;
    forall h | h in d'.participants
      ensures h in d.participants ==> SameIdentity(d.participants[h], d'.participants[h])
      ensures h !in d.participants ==> InsertedBy(d, id, r, h, d'.participants[h])
    {
      assert RowKept(d, id, r, t, h, d'.participants[h]);
    }
  }

  lemma AdvanceDistinct(d: Db, id: RequestId, r: Request, pinged: bool, t: Tick, begun: nat)
    requires Fits(r.call, r.pc) && RowsDistinct(d, begun) && id < begun
    ensures RowsDistinct(Advance(d, id, r, pinged, t).0, begun)
  {
    RowIdentities(d, id, r, pinged, t);
    hide Advance;
    assert forall g :: g in d.participants ==> HasInstance(d, d.participants[g].room, d.participants[g].instance, g);
  }

  lemma {:induction false} OneRowPerInstance(run: seq<Action>)
    ensures var s := Exec(INIT, run); RowsDistinct(s.db, |s.calls|)
  {
    if run != [] {
      var before := Exec(INIT, run[..|run| - 1]);
      var a := run[|run| - 1];
      OneRowPerInstance(run[..|run| - 1]);
      RunKeeps(INIT, run[..|run| - 1]);
      StepDistinct(before, a);
    }
  }

  lemma StepDistinct(s: State, a: Action)
    requires WellFormed(s) && RowsDistinct(s.db, |s.calls|)
    ensures RowsDistinct(Step(s, a).db, |Step(s, a).calls|)
  {
    hide Advance;
    if a.Run? && a.id in s.requests {
      assert RequestOk(s, a.id);
      AdvanceDistinct(s.db, a.id, s.requests[a.id], a.id in s.pings, a.tick, |s.calls|);
    }
  }

  // ---- what an answer shows has been consumed ----

  /** The row whose cursor bounded this is still under its handle: then its cursor is at least there. */
  ghost predicate Behind(d: Db, handle: Handle, row: Option<nat>, upTo: nat) {
    row.Some? ==>
      && row.value < d.nextRow
      && (handle in d.participants && d.participants[handle].row == row.value ==> upTo <= d.participants[handle].cursor)
  }

  ghost predicate AnswerBehind(d: Db, a: JoinAnswer) {
    forall k :: k in a.recent ==> Behind(d, a.handle, a.row, k)
  }

  ghost predicate RequestBehind(d: Db, r: Request) {
    match r.pc
    case Joining(ReadRecent(h, _, upTo, row)) => Behind(d, h, row, upTo)
    case _ => true
  }

  ghost predicate NothingShownTwice(s: State) {
    && (forall i :: 0 <= i < |s.answers| ==> AnswerBehind(s.db, s.answers[i]))
    && (forall id :: id in s.requests ==> RequestBehind(s.db, s.requests[id]))
  }

  lemma BehindStays(d: Db, d': Db, handle: Handle, row: Option<nat>, upTo: nat)
    requires Evolves(d, d') && Behind(d, handle, row, upTo)
    ensures Behind(d', handle, row, upTo)
  {
  }

  lemma JoinBehind(d: Db, id: RequestId, r: Request, t: Tick)
    requires Fits(r.call, r.pc) && r.pc.Joining? && RequestBehind(d, r) && RowsNumbered(d)
    ensures var (d', next) := JoinNext(d, id, r.call, r.pc.join, t);
      && (next.Goto? ==> RequestBehind(d', Request(r.call, next.pc)))
      && (next.Joined? ==> AnswerBehind(d', next.answer))
  {
    var (d', next) := JoinNext(d, id, r.call, r.pc.join, t);
    if next.Joined? {
      forall k | k in next.answer.recent ensures Behind(d', next.answer.handle, next.answer.row, k) {
        assert k <= r.pc.join.upTo;
      }
    }
  }

  lemma AdvanceBehind(d: Db, id: RequestId, r: Request, pinged: bool, t: Tick)
    requires Fits(r.call, r.pc) && Lawful(r.pc) && RequestBehind(d, r) && RowsNumbered(d)
    ensures var (d', next) := Advance(d, id, r, pinged, t);
      && (next.Goto? ==> RequestBehind(d', Request(r.call, next.pc)))
      && (next.Joined? ==> AnswerBehind(d', next.answer))
  {
    AdvanceKeeps(d, id, r, pinged, t);
    if r.pc.Joining? { JoinBehind(d, id, r, t); }
    hide JoinNext, RowsNumbered, Evolves, Lawful, CloseNext, ExtendNext, SignalNext;
    if r.pc.Closing? || r.pc.Extending? || r.pc.Signalling? { NoAnswer(d, id, r, pinged, t); }
  }

  lemma NoAnswer(d: Db, id: RequestId, r: Request, pinged: bool, t: Tick)
    requires Fits(r.call, r.pc) && (r.pc.Closing? || r.pc.Extending? || r.pc.Signalling?)
    ensures !Advance(d, id, r, pinged, t).1.Joined?
  {
    hide TryExtend;
  }

  lemma AnswersStayBehind(d: Db, d': Db, a: JoinAnswer)
    requires Evolves(d, d') && AnswerBehind(d, a)
    ensures AnswerBehind(d', a)
  {
    forall k | k in a.recent ensures Behind(d', a.handle, a.row, k) { BehindStays(d, d', a.handle, a.row, k); }
  }

  lemma RequestStaysBehind(d: Db, d': Db, r: Request)
    requires Evolves(d, d') && RequestBehind(d, r)
    ensures RequestBehind(d', r)
  {
    match r.pc
    case Joining(ReadRecent(h, _, upTo, row)) => BehindStays(d, d', h, row, upTo);
    case _ =>
  }

  lemma StepBehind(s: State, a: Action)
    requires WellFormed(s) && NothingShownTwice(s)
    ensures NothingShownTwice(Step(s, a))
  {
    var s' := Step(s, a);
    StepKeeps(s, a);
    if a.Run? && a.id in s.requests {
      assert RequestOk(s, a.id);
      AdvanceBehind(s.db, a.id, s.requests[a.id], a.id in s.pings, a.tick);
    }
    hide Advance, WellFormed, RequestOk, Evolves, AnswerBehind;
    forall i | 0 <= i < |s.answers| ensures AnswerBehind(s'.db, s.answers[i]) {
      AnswersStayBehind(s.db, s'.db, s.answers[i]);
    }
    forall id | id in s.requests ensures RequestBehind(s'.db, s.requests[id]) {
      RequestStaysBehind(s.db, s'.db, s.requests[id]);
    }
  }

  /** In every run: no join answer contains a message that the participant it names can still claim. */
  lemma {:induction false} JoinsShowOnlyConsumed(run: seq<Action>)
    ensures NothingShownTwice(Exec(INIT, run))
  {
    if run != [] {
      RunKeeps(INIT, run[..|run| - 1]);
      JoinsShowOnlyConsumed(run[..|run| - 1]);
      StepBehind(Exec(INIT, run[..|run| - 1]), run[|run| - 1]);
    }
  }

  // ---- get or create ----

  /** Still on its way to a row of its own, or resuming another's. */
  predicate NotCreator(pc: Pc) {
    !(pc.Joining? && pc.join.ReadRecent? && !pc.join.resumed)
  }

  ghost predicate NamesRow(d: Db, room: RoomId, instance: string, h: Handle, id: RequestId, resumed: bool) {
    HasInstance(d, room, instance, h) && (resumed <==> d.participants[h].creator != id)
  }

  ghost predicate JoinOk(d: Db, id: RequestId, r: Request, room: RoomId, instance: string) {
    && (NotCreator(r.pc) ==> forall h :: h in d.participants ==> d.participants[h].creator != id)
    && (r.call.room == room && r.call.instance == instance ==>
          match r.pc
          case Joining(ReadRecent(h, resumed, _, _)) => NamesRow(d, room, instance, h, id, resumed)
          case Joining(ReadJoinedCursor(_, h)) => HasInstance(d, room, instance, h)
          case _ => true)
  }

  ghost predicate AnswerOk(d: Db, a: JoinAnswer, room: RoomId, instance: string) {
    a.room == room && a.instance == instance ==> NamesRow(d, room, instance, a.handle, a.id, a.resumed)
  }

  ghost predicate GetOrCreate(s: State, room: RoomId, instance: string) {
    && RowsDistinct(s.db, |s.calls|)
    && (forall id :: id in s.requests ==> JoinOk(s.db, id, s.requests[id], room, instance))
    && (forall i :: 0 <= i < |s.answers| ==> AnswerOk(s.db, s.answers[i], room, instance))
    && (forall id :: id in s.requests && s.requests[id].call.room == room ==> !s.requests[id].call.op.Prune?)
  }

  lemma JoinDecides(d: Db, id: RequestId, r: Request, t: Tick, room: RoomId, instance: string)
    requires Fits(r.call, r.pc) && r.pc.Joining? && JoinOk(d, id, r, room, instance) && !HasHandle(d, room, instance)
    ensures var (d', next) := JoinNext(d, id, r.call, r.pc.join, t);
      && (next.Goto? ==> JoinOk(d', id, Request(r.call, next.pc), room, instance))
      && (next.Joined? ==> next.answer.id == id && AnswerOk(d', next.answer, room, instance))
  {
  }

  /** Without a prune of the room its rows stay. */
  lemma RowsStay(d: Db, id: RequestId, r: Request, pinged: bool, t: Tick, room: RoomId)
    requires Fits(r.call, r.pc) && !(r.call.op.Prune? && r.call.room == room)
    ensures var d' := Advance(d, id, r, pinged, t).0;
      forall h :: h in d.participants && d.participants[h].room == room ==> h in d'.participants
  {
    AdvanceRows(d, id, r, pinged, t);
    hide Advance;
  }

  lemma OtherJoinsStay(d: Db, d': Db, id: RequestId, r: Request, other: RequestId, o: Request, room: RoomId,
                       instance: string)
    requires other != id && JoinOk(d, other, o, room, instance)
    requires forall h :: h in d.participants && d.participants[h].room == room ==> h in d'.participants
    requires forall h ::
        h in d.participants && h in d'.participants ==> SameIdentity(d.participants[h], d'.participants[h])
    requires forall h :: h in d'.participants && h !in d.participants ==> InsertedBy(d, id, r, h, d'.participants[h])
    ensures JoinOk(d', other, o, room, instance)
  {
  }

  lemma OwnJoin(d: Db, id: RequestId, r: Request, pinged: bool, t: Tick, room: RoomId, instance: string)
    requires RowsNumbered(d) && Fits(r.call, r.pc) && Lawful(r.pc)
    requires JoinOk(d, id, r, room, instance) && !HasHandle(d, room, instance)
    ensures var (d', next) := Advance(d, id, r, pinged, t);
      && (next.Goto? ==> JoinOk(d', id, Request(r.call, next.pc), room, instance))
      && (next.Joined? ==> next.answer.id == id && AnswerOk(d', next.answer, room, instance))
  {
    var (d', next) := Advance(d, id, r, pinged, t);
    if r.pc.Joining? {
      JoinDecides(d, id, r, t, room, instance);
      hide JoinNext;
    } else {
      AdvanceKeeps(d, id, r, pinged, t);
      AdvanceRows(d, id, r, pinged, t);
      NotJoined(d, id, r, pinged, t);
      hide Advance, RowsNumbered, Evolves, Lawful;
      forall h | h in d'.participants ensures d'.participants[h].creator != id {
        assert RowKept(d, id, r, t, h, d'.participants[h]);
      }
    }
  }

  lemma NotJoined(d: Db, id: RequestId, r: Request, pinged: bool, t: Tick)
    requires Fits(r.call, r.pc) && !r.pc.Joining?
    ensures var next := Advance(d, id, r, pinged, t).1;
      !next.Joined? && (next.Goto? && next.pc.Joining? ==> next.pc.join.ReadHead?)
  {
    hide TryExtend;
  }

  lemma OthersGetOrCreate(s: State, id: RequestId, t: Tick, room: RoomId, instance: string, d': Db)
    requires WellFormed(s) && GetOrCreate(s, room, instance) && id in s.requests
    requires d' == Advance(s.db, id, s.requests[id], id in s.pings, t).0
    ensures forall o :: o in s.requests && o != id ==> JoinOk(d', o, s.requests[o], room, instance)
    ensures forall i :: 0 <= i < |s.answers| ==> AnswerOk(d', s.answers[i], room, instance)
  {
    assert RequestOk(s, id);
    RowsStay(s.db, id, s.requests[id], id in s.pings, t, room);
    RowIdentities(s.db, id, s.requests[id], id in s.pings, t);
    hide Advance, RequestOk;
    forall o | o in s.requests && o != id ensures JoinOk(d', o, s.requests[o], room, instance) {
      OtherJoinsStay(s.db, d', id, s.requests[id], o, s.requests[o], room, instance);
    }
    forall i | 0 <= i < |s.answers| ensures AnswerOk(d', s.answers[i], room, instance) {
      assert AnswerOk(s.db, s.answers[i], room, instance);
    }
  }

  lemma AllAreOk(s: State, id: RequestId, room: RoomId, instance: string)
    requires WellFormed(s) && GetOrCreate(s, room, instance) && id in s.requests
    ensures var r := s.requests[id];
      Fits(r.call, r.pc) && Lawful(r.pc) && RowsNumbered(s.db) && JoinOk(s.db, id, r, room, instance)
  {
    hide WellFormed, Fits, Lawful, RowsNumbered, JoinOk, RowsDistinct, AnswerOk;
    IsLawful(s, id);
  }

  lemma RunGetOrCreate(s: State, id: RequestId, t: Tick, room: RoomId, instance: string)
    requires WellFormed(s) && GetOrCreate(s, room, instance) && !HasHandle(s.db, room, instance) && id in s.requests
    ensures GetOrCreate(Step(s, Run(id, t)), room, instance)
  {
    hide Advance, RequestOk, JoinOk, AnswerOk, RowsDistinct, WellFormed, RowsNumbered, Lawful, Fits, HasHandle;
    AllAreOk(s, id, room, instance);
    StepDistinct(s, Run(id, t));
    var d' := Advance(s.db, id, s.requests[id], id in s.pings, t).0;
    OwnJoin(s.db, id, s.requests[id], id in s.pings, t, room, instance);
    OthersGetOrCreate(s, id, t, room, instance, d');
  }

  lemma StepGetOrCreate(s: State, a: Action, room: RoomId, instance: string)
    requires WellFormed(s) && GetOrCreate(s, room, instance) && !HasHandle(s.db, room, instance)
    requires a.Begin? && a.call.room == room ==> !a.call.op.Prune?
    ensures GetOrCreate(Step(s, a), room, instance)
  {
    hide Advance;
    match a
    case Run(id, t) => if id in s.requests { RunGetOrCreate(s, id, t, room, instance); }
    case _ => assert Step(s, a).db.participants == s.db.participants;
  }

  /** In a run that prunes nothing from the room and in which the instance string is nobody's handle: there is at most
      one row for the instance, every answered join of it names that row, and `resumed` is false in exactly the answer
      of the join that inserted it. */
  lemma {:induction false} JoinIsGetOrCreate(run: seq<Action>, room: RoomId, instance: string)
    requires forall i :: 0 <= i < |run| && run[i].Begin? && run[i].call.room == room ==> !run[i].call.op.Prune?
    requires forall n :: 0 <= n <= |run| ==> !HasHandle(Exec(INIT, run[..n]).db, room, instance)
    ensures GetOrCreate(Exec(INIT, run), room, instance)
  {
    if run != [] {
      var shorter := run[..|run| - 1];
      assert forall n :: 0 <= n <= |shorter| ==> shorter[..n] == run[..n];
      RunKeeps(INIT, shorter);
      JoinIsGetOrCreate(shorter, room, instance);
      StepGetOrCreate(Exec(INIT, shorter), run[|run| - 1], room, instance);
    }
  }

  /** So all answers agree on the handle, at most one of them says it is new, and whoever calls again with the instance
      or, when no instance is spelled like it, with the handle is taken to that row. */
  lemma AnswersAgree(s: State, room: RoomId, instance: string, i: nat, j: nat)
    requires GetOrCreate(s, room, instance) && i < |s.answers| && j < |s.answers|
    requires s.answers[i].room == room && s.answers[i].instance == instance
    requires s.answers[j].room == room && s.answers[j].instance == instance
    ensures s.answers[i].handle == s.answers[j].handle
    ensures !s.answers[i].resumed && !s.answers[j].resumed ==> s.answers[i].id == s.answers[j].id
    ensures ByInstance(s.db, room, instance) == Some(s.answers[i].handle)
    ensures HasHandle(s.db, room, s.answers[i].handle)
  {
    assert AnswerOk(s.db, s.answers[i], room, instance) && AnswerOk(s.db, s.answers[j], room, instance);
  }

  // ---- the creator is told ----

  /** Whoever inserted the row is about to say so, or has. */
  ghost predicate CreatorTold(s: State, h: Handle)
    requires h in s.db.participants
  {
    var c := s.db.participants[h].creator;
    || (c in s.requests && Announces(s.requests[c].pc, h))
    || exists i :: 0 <= i < |s.answers| && s.answers[i].id == c && s.answers[i].handle == h && !s.answers[i].resumed
  }

  ghost predicate AllTold(s: State) {
    forall h :: h in s.db.participants ==> CreatorTold(s, h)
  }

  ghost predicate Announces(pc: Pc, h: Handle) {
    pc.Joining? && pc.join.ReadRecent? && pc.join.handle == h && !pc.join.resumed
  }

  /** A new row sends its join on to announce it, and an announcement is followed by the answer. */
  ghost predicate Tells(d: Db, id: RequestId, r: Request, d': Db, next: Next) {
    && (forall h :: h in d.participants && h in d'.participants ==> SameIdentity(d.participants[h], d'.participants[h]))
    && (forall h :: h in d'.participants && h !in d.participants ==>
          d'.participants[h].creator == id && next.Goto? && Announces(next.pc, h))
    && (forall h :: Announces(r.pc, h) ==>
          next.Joined? && next.answer.id == id && next.answer.handle == h && !next.answer.resumed)
  }

  lemma JoinTells(d: Db, id: RequestId, r: Request, t: Tick)
    requires Fits(r.call, r.pc) && r.pc.Joining?
    ensures var (d', next) := JoinNext(d, id, r.call, r.pc.join, t);
      && (forall h :: h in d'.participants && h !in d.participants ==> next.Goto? && Announces(next.pc, h))
      && (forall h :: Announces(r.pc, h) ==>
            next.Joined? && next.answer.id == id && next.answer.handle == h && !next.answer.resumed)
  {
  }

  lemma AdvanceTells(d: Db, id: RequestId, r: Request, pinged: bool, t: Tick)
    requires Fits(r.call, r.pc)
    ensures var (d', next) := Advance(d, id, r, pinged, t); Tells(d, id, r, d', next)
  {
    RowIdentities(d, id, r, pinged, t);
    if r.pc.Joining? { JoinTells(d, id, r, t); hide JoinNext; } else { hide Advance; }
  }

  lemma ApplyTells(s: State, id: RequestId, d': Db, next: Next, t: Tick)
    requires AllTold(s) && id in s.requests && Tells(s.db, id, s.requests[id], d', next)
    ensures AllTold(Apply(s, id, d', next, t))
  {
    var s' := Apply(s, id, d', next, t);
    forall h | h in s'.db.participants ensures CreatorTold(s', h) {
      if h in s.db.participants {
        var c := s.db.participants[h].creator;
        assert CreatorTold(s, h);
        if i :| 0 <= i < |s.answers| && s.answers[i].id == c && s.answers[i].handle == h && !s.answers[i].resumed {
          assert s'.answers[i] == s.answers[i];
        } else if c == id {
          assert Announces(s.requests[id].pc, h);
          assert s'.answers[|s.answers|] == next.answer;
        }
      }
    }
  }

  lemma StepTells(s: State, a: Action)
    requires WellFormed(s) && AllTold(s)
    ensures AllTold(Step(s, a))
  {
    hide Advance;
    match a
    case Run(id, t) =>
      if id in s.requests {
        assert RequestOk(s, id);
        AdvanceTells(s.db, id, s.requests[id], id in s.pings, t);
        var (d', next) := Advance(s.db, id, s.requests[id], id in s.pings, t);
        ApplyTells(s, id, d', next, t);
      }
    case _ =>
      var s' := Step(s, a);
      forall h | h in s'.db.participants ensures CreatorTold(s', h) {
        var c := s.db.participants[h].creator;
        assert CreatorTold(s, h);
        assert c in s.requests ==> RequestOk(s, c);
        assert s'.answers == s.answers;
      }
  }

  /** In every run, for every row there is: its creator has answered `resumed=false`, or its next step is to. */
  lemma {:induction false} CreatorIsTold(run: seq<Action>)
    ensures AllTold(Exec(INIT, run))
  {
    if run != [] {
      RunKeeps(INIT, run[..|run| - 1]);
      CreatorIsTold(run[..|run| - 1]);
      StepTells(Exec(INIT, run[..|run| - 1]), run[|run| - 1]);
    }
  }
}
