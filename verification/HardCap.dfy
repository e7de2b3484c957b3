/** The hard cap holds although every send inserts against a cap it read earlier. */
module HardCap {
  import opened Wrappers
  import opened Lifecycle
  import opened Tables
  import opened Protocol
  import opened Evolution
  import opened Effects

  /** No room holds more counting messages than its cap allows now; a room that is not there holds none. */
  ghost predicate WithinCap(d: Db) {
    && (forall r :: r in d.rooms ==> CountCapped(d.messages, r) <= d.rooms[r].hardCap)
    && MessagesPlaced(d)
  }

  lemma CountAppended(messages: seq<Message>, m: Message, room: RoomId)
    ensures CountCapped(messages + [m], room) == CountCapped(messages, room) + Counted(m, room)
  {
    assert (messages + [m])[..|messages|] == messages;
  }

  lemma {:induction false} NoneInUnknownRoom(messages: seq<Message>, room: RoomId)
    requires forall i :: 0 <= i < |messages| ==> messages[i].room != room
    ensures CountCapped(messages, room) == 0
  {
    if messages != [] { NoneInUnknownRoom(messages[..|messages| - 1], room); }
  }

  lemma AdvanceWithinCap(d: Db, id: RequestId, r: Request, pinged: bool, t: Tick)
    requires WithinCap(d) && RowsNumbered(d) && Fits(r.call, r.pc) && Lawful(r.pc) && SnapshotOk(d, r)
    ensures WithinCap(Advance(d, id, r, pinged, t).0)
  {
    var (d', next) := Advance(d, id, r, pinged, t);
    hide Advance;
    AdvanceKeeps(d, id, r, pinged, t);
    AdvanceAppends(d, id, r, pinged, t);
    AdvanceMoves(d, id, r, pinged, t);
    if d'.messages != d.messages {
      var m :| AppendsOne(d, id, r, d', next, m);
      forall k | k in d.rooms ensures CountCapped(d'.messages, k) <= d.rooms[k].hardCap {
        CountAppended(d.messages, m, k);
      }
    }
  }

  lemma StepWithinCap(s: State, a: Action)
    requires WellFormed(s) && WithinCap(s.db)
    ensures WithinCap(Step(s, a).db)
  {
    hide Advance;
    match a
    case OpenRoom(room, hardCap, softCap, now) =>
      if room !in s.db.rooms { NoneInUnknownRoom(s.db.messages, room); }
    case Run(id, t) =>
      if id in s.requests {
        assert RequestOk(s, id);
        AdvanceWithinCap(s.db, id, s.requests[id], id in s.pings, t);
      }
    case _ =>
  }

  /** In every state of every run no room holds more `msg` rows than its hard cap. */
  lemma {:induction false} HardCapHolds(run: seq<Action>)
    ensures WithinCap(Exec(INIT, run).db)
  {
    if run != [] {
      RunKeeps(INIT, run[..|run| - 1]);
      HardCapHolds(run[..|run| - 1]);
      StepWithinCap(Exec(INIT, run[..|run| - 1]), run[|run| - 1]);
    }
  }
}
