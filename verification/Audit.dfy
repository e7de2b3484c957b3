/** The audit log of every room is a path through the lifecycle table that ends where the room stands. */
module Audit {
  import opened Wrappers
  import opened Lifecycle
  import opened Tables
  import opened Protocol
  import opened Evolution
  import opened Effects

  /** The room's rows of the events table, oldest first. */
  function HistoryOf(events: seq<Event>, room: RoomId): seq<Event> {
    if events == [] then []
    else
      var e := events[|events| - 1];
      HistoryOf(events[..|events| - 1], room) + (if e.room == room then [e] else [])
  }

  function CurrentState(history: seq<Event>): RoomState {
    if history == [] then Active else history[|history| - 1].to
  }

  /** Each entry starts where the one before it ended (the first at active), follows an edge of the table, and is an
      archive entry exactly when it enters the archive. */
  ghost predicate IsPath(history: seq<Event>) {
    forall i :: 0 <= i < |history| ==>
      && history[i].from == CurrentState(history[..i])
      && Edge(history[i].from, history[i].to)
      && (history[i].kind == ArchiveKind <==> history[i].to == Archived)
  }

  ghost predicate Audited(room: Room, history: seq<Event>) {
    && IsPath(history)
    && room.state == CurrentState(history)
    && room.stateChangedAt == if history == [] then room.openedAt else history[|history| - 1].at
  }

  ghost predicate AllAudited(d: Db) {
    && (forall r :: r in d.rooms ==> Audited(d.rooms[r], HistoryOf(d.events, r)))
    && (forall i :: 0 <= i < |d.events| ==> d.events[i].room in d.rooms)
  }

  // ---- the path ----

  lemma HistoryAppended(events: seq<Event>, e: Event, room: RoomId)
    ensures HistoryOf(events + [e], room) == HistoryOf(events, room) + if e.room == room then [e] else []
  {
    assert (events + [e])[..|events|] == events;
  }

  lemma {:induction false} NoHistory(events: seq<Event>, room: RoomId)
    requires forall i :: 0 <= i < |events| ==> events[i].room != room
    ensures HistoryOf(events, room) == []
  {
    if events != [] { NoHistory(events[..|events| - 1], room); }
  }

  lemma PathExtended(history: seq<Event>, e: Event)
    requires IsPath(history) && e.from == CurrentState(history) && Edge(e.from, e.to)
    requires e.kind == ArchiveKind <==> e.to == Archived
    ensures IsPath(history + [e])
  {
    var longer := history + [e];
    forall i | 0 <= i < |longer| ensures longer[i].from == CurrentState(longer[..i]) {
      assert longer[..i] == history[..i];
      assert history[..|history|] == history;
    }
  }

  lemma EntryAudited(room: Room, history: seq<Event>, to: RoomState, at: Time, mover: RequestId, e: Event)
    requires Audited(room, history) && e.from == room.state && e.to == to && e.at == at && e.kind == KindOf(to)
    requires Edge(e.from, to)
    ensures Audited(room.(state := to, stateChangedAt := at, changedBy := mover), history + [e])
  {
    hide Edge;
    PathExtended(history, e);
  }

  lemma MoveAudited(d: Db, id: RequestId, r: Request, d': Db, next: Next)
    requires AllAudited(d) && Moved(d, id, r, d', next)
    ensures AllAudited(d')
  {
    hide Edge, IsPath, HistoryOf;
    var from, to, now, cause :| MovedBy(d, id, r, d', next, from, to, now, cause);
    var e := Event(r.call.room, KindOf(to), from, to, now, cause, id);
    assert d'.events == d.events + [e] && d'.rooms.Keys == d.rooms.Keys;
    forall k | k in d'.rooms ensures Audited(d'.rooms[k], HistoryOf(d'.events, k)) {
      HistoryAppended(d.events, e, k);
      if k == r.call.room {
        EntryAudited(d.rooms[k], HistoryOf(d.events, k), to, now, id, e);
      } else {
        assert HistoryOf(d'.events, k) == HistoryOf(d.events, k);
        assert d'.rooms[k] == d.rooms[k] && Audited(d.rooms[k], HistoryOf(d.events, k));
      }
    }
  }

  lemma NoMoveAudited(d: Db, d': Db)
    requires AllAudited(d) && NoMove(d, d')
    ensures AllAudited(d')
  {
  }

  lemma OpeningAudited(d: Db, id: RoomId, room: Room)
    requires AllAudited(d) && room.state == Active && room.stateChangedAt == room.openedAt
    ensures AllAudited(InsertRoom(d, id, room).0)
  {
    if id !in d.rooms { NoHistory(d.events, id); }
  }

  lemma StepAudited(s: State, a: Action)
    requires WellFormed(s) && AllAudited(s.db)
    ensures AllAudited(Step(s, a).db)
  {
    hide Advance, AllAudited, NoMove, Moved;
    match a
    case OpenRoom(room, hardCap, softCap, now) => OpeningAudited(s.db, room, NewRoom(hardCap, softCap, now));
    case Run(id, t) =>
      if id in s.requests {
        assert RequestOk(s, id);
        var r := s.requests[id];
        var (d', next) := Advance(s.db, id, r, id in s.pings, t);
        AdvanceMoves(s.db, id, r, id in s.pings, t);
        if Moved(s.db, id, r, d', next) { MoveAudited(s.db, id, r, d', next); } else { NoMoveAudited(s.db, d'); }
      }
    case _ =>
  }

  /** In every state of every run the events of each room form a path through the table from active to the state the
      room is in, stamped with the time it entered that state. */
  lemma {:induction false} AuditLogIsAPath(run: seq<Action>)
    ensures AllAudited(Exec(INIT, run).db)
  {
    if run != [] {
      var before := Exec(INIT, run[..|run| - 1]);
      RunKeeps(INIT, run[..|run| - 1]);
      AuditLogIsAPath(run[..|run| - 1]);
      StepAudited(before, run[|run| - 1]);
    }
  }

  lemma NothingAfterArchive(history: seq<Event>, i: nat)
    requires IsPath(history) && i < |history| && history[i].to == Archived
    ensures i + 1 == |history|
  {
    if i + 1 < |history| {
      assert history[i + 1].from == CurrentState(history[..i + 1]);
      TerminalStatesHold(history[i + 1].from, history[i + 1].to);
    }
  }

  /** On a path nothing follows an entry into closed but one entry into the archive: a room is closed at most once
      and is never opened again. */
  lemma ClosedOnce(history: seq<Event>, i: nat, j: nat)
    requires IsPath(history) && i < j < |history| && history[i].to == Closed
    ensures j == i + 1 == |history| - 1 && history[j].to == Archived
  {
    assert history[i + 1].from == CurrentState(history[..i + 1]);
    TerminalStatesHold(history[i + 1].from, history[i + 1].to);
    NothingAfterArchive(history, i + 1);
  }

  /** Once a room has ended, no run of the daemon brings it back. */
  lemma EndedStaysEnded(before: seq<Action>, after: seq<Action>, room: RoomId)
    requires room in Exec(INIT, before).db.rooms && Exec(INIT, before).db.rooms[room].state.Terminal()
    ensures var d := Exec(Exec(INIT, before), after).db; room in d.rooms && d.rooms[room].state.Terminal()
  {
    RunKeeps(INIT, before);
    RunKeeps(Exec(INIT, before), after);
  }
}
