/** A room where two or three have joined at time 0, and one of two has fallen asleep: where the runs of the other
    modules begin. */
module Gathering {
  import opened Wrappers
  import opened Lifecycle
  import opened Tables
  import opened Protocol
  import opened Evolution
  import opened Scenario

  const ROOM: RoomId := "room"

  ghost function Opened(): Db {
    EMPTY.(rooms := map[ROOM := NewRoom(20, 4, 0)])
  }

  ghost function Two(): Db {
    WithRow(WithRow(Opened(), 0, ROOM, "a", 0), 1, ROOM, "b", 0)
  }

  ghost function Three(): Db {
    WithRow(Two(), 2, ROOM, "c", 0)
  }

  lemma Gathered()
    ensures Unknown(Opened(), ROOM, "a") && Unknown(WithRow(Opened(), 0, ROOM, "a", 0), ROOM, "b")
        && Unknown(Two(), ROOM, "c")
    ensures Knows(Two(), ROOM, "a") && Knows(Two(), ROOM, "b")
    ensures Knows(Three(), ROOM, "a") && Knows(Three(), ROOM, "b") && Knows(Three(), ROOM, "c")
  {
    hide HandleFor;
    var d0, d1 := Opened(), WithRow(Opened(), 0, ROOM, "a", 0);
    assert forall n :: Unknown(d0, ROOM, n);
    hide WithRow, Knows, Unknown;
    OtherJoins(d0, 0, ROOM, "a", 0, ROOM, "b");
    OtherJoins(d0, 0, ROOM, "a", 0, ROOM, "c");
    OtherJoins(d1, 1, ROOM, "b", 0, ROOM, "a");
    OtherJoins(d1, 1, ROOM, "b", 0, ROOM, "c");
    OtherJoins(Two(), 2, ROOM, "c", 0, ROOM, "a");
    OtherJoins(Two(), 2, ROOM, "c", 0, ROOM, "b");
    NewlyKnown(d0, 0, ROOM, "a", 0);
    NewlyKnown(d1, 1, ROOM, "b", 0);
    NewlyKnown(Two(), 2, ROOM, "c", 0);
  }

  /** A row of the room with this number, last poll and whether it wants to close; it has read nothing. */
  predicate Row(d: Db, name: string, row: nat, polled: Time, closes: bool) {
    && HandleFor(name) in d.participants
    && var p := d.participants[HandleFor(name)];
       p.room == ROOM && p.row == row && p.lastPollAt == polled && p.cursor == 0 && p.wantsClose.Some? == closes
           && p.wantsExtend.None?
  }

  lemma Rows()
    ensures HandleFor("a") != HandleFor("b") && HandleFor("a") != HandleFor("c") && HandleFor("b") != HandleFor("c")
    ensures Two().participants.Keys == {HandleFor("a"), HandleFor("b")}
    ensures Three().participants.Keys == {HandleFor("a"), HandleFor("b"), HandleFor("c")}
    ensures Row(Two(), "a", 0, 0, false) && Row(Two(), "b", 1, 0, false)
    ensures Row(Three(), "a", 0, 0, false) && Row(Three(), "b", 1, 0, false) && Row(Three(), "c", 2, 0, false)
    ensures Two().messages == Three().messages == [] && Two().rooms == Three().rooms == map[ROOM := NewRoom(20, 4, 0)]
  {
    NamesApart("a", "b");
    NamesApart("a", "c");
    NamesApart("b", "c");
    hide HandleFor;
  }

  lemma TwoJoin() returns (run: seq<Action>, s: State)
    ensures At(run, s) && NoPrune(run) && Idles(s, Two())
    ensures s.calls == [Call(Join("a"), ROOM, "a"), Call(Join("b"), ROOM, "b")]
  {
    Gathered();
    run, s := Opens([], INIT, ROOM);
    assert s.db == Opened();
    hide At, NoPrune, WithRow, Unknown, Exec;
    run, s := Joins(run, s, ROOM, "a", 0);
    run, s := Joins(run, s, ROOM, "b", 0);
  }

  lemma ThreeJoin() returns (run: seq<Action>, s: State)
    ensures At(run, s) && NoPrune(run) && Idles(s, Three()) && |s.calls| == 3
  {
    Gathered();
    run, s := TwoJoin();
    hide At, NoPrune, WithRow, Unknown, Fresh;
    run, s := Joins(run, s, ROOM, "c", 0);
  }

  // ---- one of two falls asleep ----

  ghost function WaitOf(name: string): Call {
    Call(Wait(true), ROOM, name)
  }

  ghost function Asleep(d: Db, name: string, row: nat, now: Time): Pc {
    Waiting(HandleFor(name), row, false, Parked(Sighting(RosterOf(d, ROOM), now), Sighting(RosterOf(d, ROOM), now)))
  }

  ghost function Resting(): Db {
    TouchLastPoll(Two(), HandleFor("a"), 0)
  }

  lemma RestingRows()
    ensures Row(Resting(), "a", 0, 0, false) && Row(Resting(), "b", 1, 0, false)
    ensures Resting().participants.Keys == {HandleFor("a"), HandleFor("b")}
    ensures Resting().rooms == map[ROOM := NewRoom(20, 4, 0)] && Resting().messages == [] && Resting().casts == 0
    ensures Knows(Resting(), ROOM, "a") && Knows(Resting(), ROOM, "b")
    ensures HandleFor("a") != HandleFor("b")
  {
    Rows();
    Gathered();
    hide HandleFor, Knows;
    StillKnown(Two(), Resting(), ROOM, "a");
    StillKnown(Two(), Resting(), ROOM, "b");
  }

  /** `a` falls asleep. */
  lemma ASleeps() returns (run: seq<Action>, s: State)
    ensures At(run, s) && NoPrune(run) && Fresh(s) && |s.calls| == 3
    ensures s.db == Resting() && s.pings == {} && s.unannounced == map[]
    ensures s.requests == map[2 := Request(WaitOf("a"), Asleep(Resting(), "a", 0, 0))]
  {
    Gathered();
    Rows();
    RestingRows();
    NothingYetToSee();
    run, s := TwoJoin();
    var s0 := s;
    hide At, NoPrune, Fresh, HandleFor, Two, Knows, NothingAfoot, RosterOf;
    run := FallsAsleep(run, s0, ROOM, "a", 0);
    WithStaysFresh(s0, WaitOf("a"), Resting(), Asleep(Resting(), "a", 0, 0));
    s := With(s0, WaitOf("a"), Resting(), Asleep(Resting(), "a", 0, 0));
  }

  lemma NothingYetToSee()
    ensures NothingAfoot(Resting(), ROOM, HandleFor("a"), 0)
  {
    RestingRows();
    hide HandleFor, Two, Resting, Knows;
    assert HandleFor("b") in RosterOf(Resting(), ROOM);
  }
}
