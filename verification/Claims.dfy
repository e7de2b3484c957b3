/** What a participant is handed, over all its long-polls together, is exactly its inbox, as long as no claim strays:
    the cursor is found by the handle alone, and a handle that was pruned can have been minted again in another room. */
module Claims {
  import opened Wrappers
  import opened Lifecycle
  import opened Tables
  import opened Protocol
  import opened Evolution
  import opened Effects

  /** The seqs in (lo, hi] of messages for `me`, in order. */
  function Inbox(messages: seq<Message>, room: RoomId, me: Handle, lo: nat, hi: nat): seq<nat>
    requires hi <= |messages|
  {
    if hi <= lo then []
    else Inbox(messages, room, me, lo, hi - 1) + if Relevant(messages, room, me, hi) then [hi] else []
  }

  predicate Rising(box: seq<nat>) {
    forall i, j :: 0 <= i < j < |box| ==> box[i] < box[j]
  }

  lemma {:induction false} InboxMembers(messages: seq<Message>, room: RoomId, me: Handle, lo: nat, hi: nat)
    requires hi <= |messages|
    ensures forall k: nat :: k in Inbox(messages, room, me, lo, hi) <==> lo < k <= hi && Relevant(messages, room, me, k)
  {
    if hi > lo { InboxMembers(messages, room, me, lo, hi - 1); }
  }

  lemma {:induction false} InboxRises(messages: seq<Message>, room: RoomId, me: Handle, lo: nat, hi: nat)
    requires hi <= |messages|
    ensures Rising(Inbox(messages, room, me, lo, hi))
  {
    if hi > lo {
      var box, shorter := Inbox(messages, room, me, lo, hi), Inbox(messages, room, me, lo, hi - 1);
      InboxRises(messages, room, me, lo, hi - 1);
      InboxMembers(messages, room, me, lo, hi - 1);
      if Relevant(messages, room, me, hi) {
        assert box == shorter + [hi];
        assert forall i :: 0 <= i < |shorter| ==> shorter[i] in shorter;
      } else {
        assert box == shorter;
      }
    }
  }

  /** Each message for `me` between the cursors is there, nothing else is, and in strictly rising order: so once
      each. */
  lemma InboxIsExact(messages: seq<Message>, room: RoomId, me: Handle, lo: nat, hi: nat)
    requires hi <= |messages|
    ensures forall k: nat :: k in Inbox(messages, room, me, lo, hi) <==> lo < k <= hi && Relevant(messages, room, me, k)
    ensures Rising(Inbox(messages, room, me, lo, hi))
  {
    InboxMembers(messages, room, me, lo, hi);
    InboxRises(messages, room, me, lo, hi);
  }

  lemma {:induction false} InboxStable(messages: seq<Message>, longer: seq<Message>, room: RoomId, me: Handle, lo: nat,
                                       hi: nat)
    requires hi <= |messages| && messages <= longer
    ensures Inbox(messages, room, me, lo, hi) == Inbox(longer, room, me, lo, hi)
  {
    if hi > lo { InboxStable(messages, longer, room, me, lo, hi - 1); }
  }

  /** `k` is the first message for `me` past the cursor. */
  ghost predicate IsNext(messages: seq<Message>, room: RoomId, me: Handle, cursor: nat, k: nat) {
    && cursor < k <= |messages|
    && Relevant(messages, room, me, k)
    && forall j :: cursor < j < k ==> !Relevant(messages, room, me, j)
  }

  lemma {:induction false} InboxSkips(messages: seq<Message>, room: RoomId, me: Handle, lo: nat, mid: nat, hi: nat)
    requires lo <= mid <= hi <= |messages|
    requires forall j :: mid < j <= hi ==> !Relevant(messages, room, me, j)
    ensures Inbox(messages, room, me, lo, hi) == Inbox(messages, room, me, lo, mid)
  {
    if hi > mid { InboxSkips(messages, room, me, lo, mid, hi - 1); }
  }

  lemma InboxGrows(messages: seq<Message>, room: RoomId, me: Handle, lo: nat, cursor: nat, k: nat)
    requires lo <= cursor && IsNext(messages, room, me, cursor, k)
    ensures Inbox(messages, room, me, lo, k) == Inbox(messages, room, me, lo, cursor) + [k]
  {
    InboxSkips(messages, room, me, lo, cursor, k - 1);
  }

  /** The row has claimed its inbox between the cursor it was inserted with and the one it has now. */
  ghost predicate Exact(messages: seq<Message>, h: Handle, p: Participant) {
    && p.joinedAt <= p.cursor <= |messages|
    && p.claimed == Inbox(messages, p.room, h, p.joinedAt, p.cursor)
  }

  ghost predicate AllExact(d: Db) {
    forall h :: h in d.participants ==> Exact(d.messages, h, d.participants[h])
  }

  /** What a running request has read about the log and still relies on. */
  ghost predicate Informed(messages: seq<Message>, r: Request) {
    match r.pc
    case Waiting(me, _, _, SwapCursor(cursor, k)) => IsNext(messages, r.call.room, me, cursor, k)
    case Joining(FindRow(start)) => start <= |messages|
    case Joining(FindRowByHandle(start)) => start <= |messages|
    case Joining(ListRows(start, _)) => start <= |messages|
    case Joining(InsertRow(start, _, _)) => start <= |messages|
    case Joining(Refetch(start, _)) => start <= |messages|
    case _ => true
  }

  lemma InformedStays(messages: seq<Message>, longer: seq<Message>, r: Request)
    requires messages <= longer && Informed(messages, r)
    ensures Informed(longer, r)
  {
    if r.pc.Waiting? && r.pc.stage.SwapCursor? {
      forall j | r.pc.stage.cursor < j <= r.pc.stage.seqno
        ensures Relevant(longer, r.call.room, r.pc.me, j) == Relevant(messages, r.call.room, r.pc.me, j)
      {
      }
    }
  }

  lemma WaitInformed(d: Db, r: Request, pinged: bool, t: Tick)
    requires Fits(r.call, r.pc) && Informed(d.messages, r)
    ensures r.pc.Entering? ==>
      var next := WaitNext(d, r.call, r.pc.room, r.pc.me, r.pc.row, r.pc.enter, t).1;
      next.Goto? ==> Informed(d.messages, Request(r.call, next.pc))
    ensures r.pc.Waiting? ==>
      var next := WaiterNext(d, r.call, r.pc.me, r.pc.row, r.pc.zero, r.pc.stage, pinged, t).1;
      next.Goto? ==> Informed(d.messages, Request(r.call, next.pc))
  {
  }

  lemma JoinInformed(d: Db, id: RequestId, r: Request, t: Tick)
    requires Fits(r.call, r.pc) && r.pc.Joining? && Informed(d.messages, r)
    ensures var next := JoinNext(d, id, r.call, r.pc.join, t).1;
      next.Goto? ==> Informed(d.messages, Request(r.call, next.pc))
  {
  }

  lemma AdvanceInformed(d: Db, id: RequestId, r: Request, pinged: bool, t: Tick)
    requires RowsNumbered(d) && Fits(r.call, r.pc) && Lawful(r.pc) && Informed(d.messages, r)
    ensures var (d', next) := Advance(d, id, r, pinged, t);
      next.Goto? ==> Informed(d.messages, Request(r.call, next.pc))
  {
    AdvanceKeeps(d, id, r, pinged, t);
    WaitInformed(d, r, pinged, t);
    if r.pc.Joining? { JoinInformed(d, id, r, t); }
    hide SendNext, SignalNext, CloseNext, ExtendNext, WaitNext, WaiterNext, JoinNext, SweepNext, RowsNumbered, Evolves,
        Lawful;
  }

  // ---- the guard ----

  /** The step would move a cursor that belongs to a row of another room than the waiter's. */
  ghost predicate Strays(d: Db, r: Request) {
    && r.pc.Waiting? && r.pc.stage.SwapCursor?
    && r.pc.me in d.participants && d.participants[r.pc.me].cursor == r.pc.stage.cursor
    && d.participants[r.pc.me].room != r.call.room
  }

  ghost predicate StepStrays(s: State, a: Action) {
    a.Run? && a.id in s.requests && Strays(s.db, s.requests[a.id])
  }

  lemma RowExact(d: Db, d': Db, id: RequestId, r: Request, t: Tick, h: Handle)
    requires Informed(d.messages, r) && AllExact(d) && !Strays(d, r) && d.messages <= d'.messages
    requires h in d'.participants && RowKept(d, id, r, t, h, d'.participants[h])
    ensures Exact(d'.messages, h, d'.participants[h])
  {
    var p' := d'.participants[h];
    if h in d.participants {
      var p := d.participants[h];
      assert Exact(d.messages, h, p);
      if p'.cursor != p.cursor { InboxGrows(d.messages, p.room, h, p.joinedAt, p.cursor, p'.cursor); }
      InboxStable(d.messages, d'.messages, p.room, h, p.joinedAt, p'.cursor);
    }
  }

  lemma HomeClaimsExact(d: Db, id: RequestId, r: Request, pinged: bool, t: Tick)
    requires Fits(r.call, r.pc) && Informed(d.messages, r) && AllExact(d) && !Strays(d, r)
    ensures AllExact(Advance(d, id, r, pinged, t).0)
  {
    hide Advance, Fits, Informed, Strays, Exact, RowKept;
    var d' := Advance(d, id, r, pinged, t).0;
    AdvanceRows(d, id, r, pinged, t);
    AdvanceAppends(d, id, r, pinged, t);
    assert d.messages <= d'.messages;
    forall h | h in d'.participants ensures Exact(d'.messages, h, d'.participants[h]) { RowExact(d, d', id, r, t, h); }
  }

  /** The message a straying claim takes is none of the row's inbox. */
  lemma StrayClaimsInexact(d: Db, id: RequestId, r: Request, pinged: bool, t: Tick)
    requires Fits(r.call, r.pc) && Informed(d.messages, r) && Strays(d, r)
    ensures !AllExact(Advance(d, id, r, pinged, t).0)
  {
    var d' := Advance(d, id, r, pinged, t).0;
    var me, k := r.pc.me, r.pc.stage.seqno;
    var p' := d'.participants[me];
    assert d'.messages == d.messages && k in p'.claimed && !Relevant(d.messages, p'.room, me, k);
    hide Advance;
    if p'.cursor <= |d'.messages| { InboxMembers(d'.messages, p'.room, me, p'.joinedAt, p'.cursor); }
  }

  ghost predicate AllInformed(s: State) {
    forall id :: id in s.requests ==> Informed(s.db.messages, s.requests[id])
  }

  lemma ApplyInformed(s: State, id: RequestId, d': Db, next: Next, t: Tick)
    requires AllInformed(s) && id in s.requests && s.db.messages <= d'.messages
    requires next.Goto? ==> Informed(s.db.messages, Request(s.requests[id].call, next.pc))
    ensures AllInformed(Apply(s, id, d', next, t))
  {
    hide Informed;
    var s' := Apply(s, id, d', next, t);
    forall i | i in s'.requests ensures Informed(d'.messages, s'.requests[i]) {
      assert i != id ==> s'.requests[i] == s.requests[i] && Informed(s.db.messages, s.requests[i]);
      InformedStays(s.db.messages, d'.messages, s'.requests[i]);
    }
  }

  lemma StepInformed(s: State, a: Action)
    requires WellFormed(s) && AllInformed(s)
    ensures AllInformed(Step(s, a))
  {
    hide Advance;
    match a
    case Run(id, t) =>
      hide Informed;
      if id in s.requests {
        assert RequestOk(s, id);
        AdvanceInformed(s.db, id, s.requests[id], id in s.pings, t);
        AdvanceAppends(s.db, id, s.requests[id], id in s.pings, t);
        var (d', next) := Advance(s.db, id, s.requests[id], id in s.pings, t);
        ApplyInformed(s, id, d', next, t);
      }
    case _ =>
  }

  /** From exact claims a step leads to exact claims if and only if it does not stray. */
  lemma StepExact(s: State, a: Action)
    requires WellFormed(s) && AllInformed(s) && AllExact(s.db)
    ensures AllExact(Step(s, a).db) <==> !StepStrays(s, a)
  {
    hide Advance, Exact;
    match a
    case Run(id, t) =>
      if id in s.requests {
        assert RequestOk(s, id) && Informed(s.db.messages, s.requests[id]);
        if Strays(s.db, s.requests[id]) {
          StrayClaimsInexact(s.db, id, s.requests[id], id in s.pings, t);
        } else {
          HomeClaimsExact(s.db, id, s.requests[id], id in s.pings, t);
        }
      }
    case _ => assert Step(s, a).db.participants == s.db.participants && Step(s, a).db.messages == s.db.messages;
  }

  ghost predicate ExactThroughout(run: seq<Action>) {
    forall n :: 0 <= n <= |run| ==> AllExact(Exec(INIT, run[..n]).db)
  }

  ghost predicate NoneStrays(run: seq<Action>) {
    forall n :: 0 <= n < |run| ==> !StepStrays(Exec(INIT, run[..n]), run[n])
  }

  lemma {:induction false} AlwaysInformed(run: seq<Action>)
    ensures AllInformed(Exec(INIT, run))
  {
    if run != [] {
      RunKeeps(INIT, run[..|run| - 1]);
      AlwaysInformed(run[..|run| - 1]);
      StepInformed(Exec(INIT, run[..|run| - 1]), run[|run| - 1]);
    }
  }

  /** In every run: at all its moments each row has claimed exactly its inbox, if and only if no claim of the run moves
      the cursor of a row of another room. */
  lemma {:induction false} ClaimsAreExact(run: seq<Action>)
    ensures ExactThroughout(run) <==> NoneStrays(run)
  {
    hide Exec, Step, StepStrays, AllExact, NoneStrays, ExactThroughout, WellFormed, AllInformed;
    if run == [] {
      NothingYet();
    } else {
      var shorter, a := run[..|run| - 1], run[|run| - 1];
      ClaimsAreExact(shorter);
      InitIsWellFormed();
      RunKeeps(INIT, shorter);
      AlwaysInformed(shorter);
      var s := Exec(INIT, shorter);
      if AllExact(s.db) { StepExact(s, a); }
      assert run == shorter + [a];
      LastOf(run, shorter, a);
    }
  }

  lemma NothingYet()
    ensures ExactThroughout([]) && NoneStrays([])
  {
  }

  /** Both properties split into those of the shorter run and the last step. */
  lemma LastOf(run: seq<Action>, shorter: seq<Action>, a: Action)
    requires run == shorter + [a]
    ensures ExactThroughout(run) <==> ExactThroughout(shorter) && AllExact(Step(Exec(INIT, shorter), a).db)
    ensures NoneStrays(run) <==> NoneStrays(shorter) && !StepStrays(Exec(INIT, shorter), a)
    ensures ExactThroughout(shorter) ==> AllExact(Exec(INIT, shorter).db)
  {
    hide Exec, Step, StepStrays, AllExact;
    ExecSplits(run, shorter, a);
  }

  // ---- a row that was never pruned is at home ----

  /** The waiter's row is the one it resolved: it has not been pruned since. */
  ghost predicate OwnRow(d: Db, pc: Pc)
    requires pc.Waiting?
  {
    pc.me in d.participants && d.participants[pc.me].row == pc.row
  }

  /** The row a long-poll remembers was there, and wherever it still is, it is in the long-poll's room. */
  ghost predicate RowHome(d: Db, r: Request) {
    match r.pc
    case Entering(_, me, row, _) =>
      row < d.nextRow && (me in d.participants && d.participants[me].row == row
                          ==> d.participants[me].room == r.call.room)
    case Waiting(me, row, _, _) =>
      row < d.nextRow && (me in d.participants && d.participants[me].row == row
                          ==> d.participants[me].room == r.call.room)
    case _ => true
  }

  ghost predicate AllHome(s: State) {
    forall id :: id in s.requests ==> RowHome(s.db, s.requests[id])
  }

  lemma HomeStays(d: Db, d': Db, r: Request)
    requires RowHome(d, r) && Evolves(d, d')
    ensures RowHome(d', r)
  {
  }

  lemma AdvanceHome(d: Db, id: RequestId, r: Request, pinged: bool, t: Tick)
    requires RowsNumbered(d) && Fits(r.call, r.pc) && RowHome(d, r)
    ensures var next := Advance(d, id, r, pinged, t).1; next.Goto? ==> RowHome(d, Request(r.call, next.pc))
  {
    AdvanceActsFor(d, id, r, pinged, t);
    hide TryExtend, Transition, RosterOf, CloseProposed, ExtendProposed, CounterpartIsStale, UpdateRoomState;
  }

  lemma StepHome(s: State, a: Action)
    requires WellFormed(s) && AllHome(s)
    ensures AllHome(Step(s, a))
  {
    StepKeeps(s, a);
    var s' := Step(s, a);
    if a.Run? && a.id in s.requests {
      assert RequestOk(s, a.id);
      AdvanceHome(s.db, a.id, s.requests[a.id], a.id in s.pings, a.tick);
    }
    hide Advance, RowHome, Evolves, RowsNumbered, MessagesPlaced;
    forall id | id in s'.requests ensures RowHome(s'.db, s'.requests[id]) {
      if id in s.requests && s'.requests[id] == s.requests[id] {
        HomeStays(s.db, s'.db, s.requests[id]);
      } else if a.Run? {
        HomeStays(s.db, s'.db, s'.requests[id]);
      } else {
        NowhereYet(s'.db, s'.requests[id]);
      }
    }
  }

  lemma NowhereYet(d: Db, r: Request)
    requires r.pc.LoadRoom?
    ensures RowHome(d, r)
  {
  }

  lemma {:induction false} AlwaysHome(run: seq<Action>)
    ensures AllHome(Exec(INIT, run))
  {
    if run != [] {
      RunKeeps(INIT, run[..|run| - 1]);
      AlwaysHome(run[..|run| - 1]);
      StepHome(Exec(INIT, run[..|run| - 1]), run[|run| - 1]);
    }
  }

  /** So a claim can stray only for a waiter whose own row is gone and whose handle was minted again. */
  lemma StraysOnlyWhenPruned(run: seq<Action>, id: RequestId)
    requires var s := Exec(INIT, run); id in s.requests && Strays(s.db, s.requests[id])
    ensures var s := Exec(INIT, run); !OwnRow(s.db, s.requests[id].pc)
  {
    AlwaysHome(run);
    assert RowHome(Exec(INIT, run).db, Exec(INIT, run).requests[id]);
  }
}
