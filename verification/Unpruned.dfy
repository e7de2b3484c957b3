/** In a run in which nobody prunes, rows never go: so neither a claim nor a vote strays. */
module Unpruned {
  import opened Wrappers
  import opened Lifecycle
  import opened Tables
  import opened Protocol
  import opened Evolution
  import opened Effects
  import opened Claims
  import opened VoteWakeup
  import opened StrayVotes

  /** The request acts for a row of its own room, if for any, and prunes nothing. */
  ghost predicate ActsAtHome(d: Db, r: Request) {
    && !r.call.op.Prune?
    && (HandleOf(r.pc).Some? ==> HasHandle(d, r.call.room, HandleOf(r.pc).value))
  }

  ghost predicate AllActAtHome(s: State) {
    forall id :: id in s.requests ==> ActsAtHome(s.db, s.requests[id])
  }

  ghost predicate NoRowGoes(d: Db, d': Db) {
    forall h :: h in d.participants ==> h in d'.participants && d'.participants[h].room == d.participants[h].room
  }

  lemma NoneGoes(d: Db, id: RequestId, r: Request, pinged: bool, t: Tick)
    requires Fits(r.call, r.pc) && !r.call.op.Prune?
    ensures NoRowGoes(d, Advance(d, id, r, pinged, t).0)
  {
    AdvanceRows(d, id, r, pinged, t);
    var d' := Advance(d, id, r, pinged, t).0;
    hide Advance;
    forall h | h in d.participants
      ensures h in d'.participants && d'.participants[h].room == d.participants[h].room
    {
      assert h !in d'.participants ==> RowRemoved(d, r, t, h);
      assert RowKept(d, id, r, t, h, d'.participants[h]);
    }
  }

  lemma ApplyAtHome(s: State, id: RequestId, d': Db, next: Next, t: Tick)
    requires AllActAtHome(s) && id in s.requests && NoRowGoes(s.db, d')
    requires next.Goto? ==> ActsAtHome(d', Request(s.requests[id].call, next.pc))
    ensures AllActAtHome(Apply(s, id, d', next, t))
  {
    forall i | i in s.requests ensures ActsAtHome(d', s.requests[i]) { assert ActsAtHome(s.db, s.requests[i]); }
    hide NoRowGoes, ActsAtHome;
  }

  lemma StaysAtHome(s: State, id: RequestId, t: Tick)
    requires WellFormed(s) && AllActAtHome(s) && id in s.requests
    ensures AllActAtHome(Step(s, Run(id, t)))
  {
    assert RequestOk(s, id) && ActsAtHome(s.db, s.requests[id]);
    var r := s.requests[id];
    var (d', next) := Advance(s.db, id, r, id in s.pings, t);
    hide Advance, Apply, WellFormed;
    NoneGoes(s.db, id, r, id in s.pings, t);
    AdvanceActsFor(s.db, id, r, id in s.pings, t);
    ApplyAtHome(s, id, d', next, t);
  }

  lemma StepAtHome(s: State, a: Action)
    requires WellFormed(s) && AllActAtHome(s) && (a.Begin? ==> !a.call.op.Prune?)
    ensures AllActAtHome(Step(s, a))
  {
    hide Advance;
    match a
    case Run(id, t) => if id in s.requests { StaysAtHome(s, id, t); }
    case _ =>
  }

  lemma {:induction false} AlwaysActAtHome(run: seq<Action>)
    requires NoPrune(run)
    ensures AllActAtHome(Exec(INIT, run))
  {
    if run != [] {
      RunKeeps(INIT, run[..|run| - 1]);
      AlwaysActAtHome(run[..|run| - 1]);
      StepAtHome(Exec(INIT, run[..|run| - 1]), run[|run| - 1]);
    }
  }

  lemma NothingStraysAtHome(s: State, a: Action)
    requires AllActAtHome(s)
    ensures !StepStrays(s, a) && !StepCastStrays(s, a) && forall w, kind :: !StepTakes(s, a, w, kind)
  {
  }

  /** So in such a run all claims are exact, no vote comes from another room, and nobody's is taken from there. */
  lemma NobodyStrays(run: seq<Action>)
    requires NoPrune(run)
    ensures NoneStrays(run) && NoneCastAway(run) && forall w, kind :: !TakenSince(run, w, kind)
  {
    hide Exec, StepStrays, StepCastStrays, StepTakes, SawAt;
    forall n | 0 <= n < |run|
      ensures !StepStrays(Exec(INIT, run[..n]), run[n]) && !StepCastStrays(Exec(INIT, run[..n]), run[n])
      ensures forall w, kind :: !TakenAt(run, n, w, kind)
    {
      AlwaysActAtHome(run[..n]);
      NothingStraysAtHome(Exec(INIT, run[..n]), run[n]);
    }
  }
}
