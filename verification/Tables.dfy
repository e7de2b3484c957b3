/** The daemon's four tables as a value, and every SQL statement or transaction the handlers use as a function on it.
    Fields marked "history" are no columns: they record what happened, so that properties can speak about it,
    and no statement's outcome depends on them. */
module Tables {
  import opened Wrappers
  import opened Lifecycle

  type RoomId = string
  type Handle = string
  /** Names one request for ever. */
  type RequestId = nat

  datatype Severity = Low | Med | High

  datatype Kind = Msg | WaitingUser(severity: Severity) | BlockerRealWork | Fold | ExtendNotice

  /** A row of the message log. Its `seq` is its position in the log, counted from 1 over all rooms. */
  datatype Message = Message(
    room: RoomId,
    sender: Handle,
    recipient: Option<Handle>,
    kind: Kind,
    fromHuman: bool,
    createdAt: Time,
    sentBy: RequestId  // history: the request that inserted it
  )

  /** A standing vote. `stamp` (history) numbers all votes in the order they were cast. */
  datatype Vote = Vote(at: Time, castBy: RequestId, stamp: nat)

  datatype Participant = Participant(
    room: RoomId,
    instance: string,
    lastPollAt: Time,
    cursor: nat,
    wantsClose: Option<Vote>,
    wantsExtend: Option<Vote>,
    row: nat,              // history: numbers all rows in the order of their insertion
    creator: RequestId,    // history: the join that inserted it
    joinedAt: nat,         // history: the cursor it was inserted with
    claimed: seq<nat>      // history: the seqs its cursor was advanced to, in order
  )

  type Roster = map<Handle, Participant>

  /** What a counting read saw, and at which clock reading. */
  datatype Sighting = Sighting(roster: Roster, at: Time)

  /** One raise of the hard cap (history): the rows counted and the last vote stamp given out by then. */
  datatype Bump = Bump(roster: Roster, cutoff: Time, stamp: nat)

  datatype Room = Room(
    state: RoomState,
    hardCap: int,
    softCap: int,
    quorum: CloseQuorum,
    lastActivityAt: Time,
    stateChangedAt: Time,
    openedAt: Time,
    openedCap: int,        // history: the hard cap at opening
    bumps: seq<Bump>,      // history: every raise of the hard cap
    changedBy: RequestId   // history: the request behind the last change of state
  )

  datatype EventKind = TransitionKind | ArchiveKind

  /** Why a state change was made (history): for a consensus close, the roster the votes were counted in. */
  datatype Cause = Routine | Forced | Consensus(sighting: Sighting)

  /** A row of the audit log; `mover` (history) is the request that made the move. */
  datatype Event = Event(
    room: RoomId, kind: EventKind, from: RoomState, to: RoomState, at: Time, cause: Cause, mover: RequestId)

  datatype Db = Db(
    rooms: map<RoomId, Room>,
    participants: map<Handle, Participant>,
    messages: seq<Message>,
    events: seq<Event>,
    nextRow: nat,          // history: rows inserted so far
    casts: nat             // history: votes cast so far
  )

  const EMPTY := Db(map[], map[], [], [], 0, 0)

  // ---- reads ----

  ghost function RosterOf(d: Db, room: RoomId): Roster {
    map h | h in d.participants && d.participants[h].room == room :: d.participants[h]
  }

  /** Polled within the ghost window: neither blocks a vote nor is left out of it. */
  ghost predicate IsLive(p: Participant, now: Time) {
    now - p.lastPollAt <= GHOST_AFTER
  }

  ghost function Live(roster: Roster, now: Time): set<Handle> {
    set h | h in roster && IsLive(roster[h], now)
  }

  ghost function CloseVoters(roster: Roster, now: Time): set<Handle> {
    set h | h in roster && IsLive(roster[h], now) && roster[h].wantsClose.Some?
  }

  /** Liveness as the extend and prune statements ask it: against a cutoff. */
  ghost function PolledSince(roster: Roster, cutoff: Time): set<Handle> {
    set h | h in roster && roster[h].lastPollAt >= cutoff
  }

  ghost function ExtendVotersSince(roster: Roster, cutoff: Time): set<Handle> {
    set h | h in roster && roster[h].lastPollAt >= cutoff && roster[h].wantsExtend.Some?
  }

  /** Another live participant wants to close and the caller has not said so. */
  ghost predicate CloseProposed(roster: Roster, me: Handle, now: Time) {
    && !(me in roster && roster[me].wantsClose.Some?)
    && exists h :: h in roster && h != me && roster[h].wantsClose.Some? && IsLive(roster[h], now)
  }

  ghost predicate ExtendProposed(roster: Roster, me: Handle, now: Time) {
    && !(me in roster && roster[me].wantsExtend.Some?)
    && exists h :: h in roster && h != me && roster[h].wantsExtend.Some? && IsLive(roster[h], now)
  }

  /** There are others, and every one of them has gone dark. */
  ghost predicate CounterpartIsStale(roster: Roster, me: Handle, now: Time) {
    && (exists h :: h in roster && h != me)
    && forall h :: h in roster && h != me ==> !IsLive(roster[h], now)
  }

  ghost predicate HasInstance(d: Db, room: RoomId, instance: string, h: Handle) {
    h in d.participants && d.participants[h].room == room && d.participants[h].instance == instance
  }

  ghost function ByInstance(d: Db, room: RoomId, instance: string): (r: Option<Handle>)
    ensures r.Some? ==> HasInstance(d, room, instance, r.value)
    ensures r.None? ==> forall h :: !HasInstance(d, room, instance, h)
  {
    if exists h :: HasInstance(d, room, instance, h)
    then var h :| HasInstance(d, room, instance, h); Some(h)
    else None
  }

  /** `UNIQUE (room_id, instance)`. */
  ghost predicate RowsUnique(d: Db) {
    forall g, h :: (&& g in d.participants && h in d.participants
                    && d.participants[g].room == d.participants[h].room
                    && d.participants[g].instance == d.participants[h].instance) ==> g == h
  }

  predicate HasHandle(d: Db, room: RoomId, handle: string) {
    handle in d.participants && d.participants[handle].room == room
  }

  /** The message with this seq is for `me`: from somebody else, and sent to all or to `me`. */
  predicate Relevant(messages: seq<Message>, room: RoomId, me: Handle, k: nat)
    requires 1 <= k <= |messages|
  {
    var m := messages[k - 1];
    m.room == room && m.sender != me && (m.recipient.None? || m.recipient.value == me)
  }

  /** The oldest message for `me` past `after`. */
  function NextUnread(messages: seq<Message>, room: RoomId, me: Handle, after: nat): (r: Option<nat>)
    ensures r.Some? ==> after < r.value <= |messages| && Relevant(messages, room, me, r.value)
    ensures r.Some? ==> forall k :: after < k < r.value ==> !Relevant(messages, room, me, k)
    ensures r.None? ==> forall k :: after < k <= |messages| ==> !Relevant(messages, room, me, k)
    decreases |messages| - after
  {
    if after >= |messages| then None
    else if Relevant(messages, room, me, after + 1) then Some(after + 1)
    else NextUnread(messages, room, me, after + 1)
  }

  /** The latest message in the room from anyone but `me`. */
  function LatestFromOther(messages: seq<Message>, room: RoomId, me: Handle): Option<Message> {
    if messages == [] then None
    else
      var m := messages[|messages| - 1];
      if m.room == room && m.sender != me then Some(m)
      else LatestFromOther(messages[..|messages| - 1], room, me)
  }

  /** The room's highest seq, 0 when it has no message. */
  function CurrentSeq(messages: seq<Message>, room: RoomId): (n: nat)
    ensures n <= |messages|
    ensures forall i :: n <= i < |messages| ==> messages[i].room != room
  {
    if messages == [] then 0
    else if messages[|messages| - 1].room == room then |messages|
    else CurrentSeq(messages[..|messages| - 1], room)
  }

  /** The seqs of the room's last `limit` messages at or below `max`, oldest first. */
  function RecentUpTo(messages: seq<Message>, room: RoomId, max: nat, limit: nat): (r: seq<nat>)
    ensures forall k :: k in r ==> 1 <= k <= max && k <= |messages| && messages[k - 1].room == room
  {
    if messages == [] || limit == 0 then []
    else
      var n := |messages|;
      if messages[n - 1].room == room && n <= max
      then RecentUpTo(messages[..n - 1], room, max, limit - 1) + [n]
      else RecentUpTo(messages[..n - 1], room, max, limit)
  }

  /** So a head other than 0 is a message of the room, and no message of the room comes after it. */
  lemma {:induction false} HeadIsLast(messages: seq<Message>, room: RoomId)
    ensures var n := CurrentSeq(messages, room);
      && (n > 0 ==> messages[n - 1].room == room)
      && (n == 0 <==> forall i :: 0 <= i < |messages| ==> messages[i].room != room)
      && forall i :: n <= i < |messages| ==> messages[i].room != room
  {
    if messages != [] && messages[|messages| - 1].room != room { HeadIsLast(messages[..|messages| - 1], room); }
  }

  /** The window rises, holds no more than `limit`, and leaves out a message of the room at or below `max` only when it
      is full of later ones. */
  lemma {:induction false} RecentIsTheTail(messages: seq<Message>, room: RoomId, max: nat, limit: nat)
    ensures var r := RecentUpTo(messages, room, max, limit);
      && |r| <= limit
      && (forall i, j :: 0 <= i < j < |r| ==> r[i] < r[j])
      && (forall k :: k in r ==> 1 <= k <= max && k <= |messages| && messages[k - 1].room == room)
      && forall k :: 1 <= k <= max && k <= |messages| && messages[k - 1].room == room ==>
           k in r || (|r| == limit && forall x :: x in r ==> k < x)
  {
    if messages != [] && limit > 0 {
      var n := |messages|;
      if messages[n - 1].room == room && n <= max {
        RecentIsTheTail(messages[..n - 1], room, max, limit - 1);
        var shorter := RecentUpTo(messages[..n - 1], room, max, limit - 1);
        assert forall i :: 0 <= i < |shorter| ==> shorter[i] in shorter;
      } else {
        RecentIsTheTail(messages[..n - 1], room, max, limit);
      }
    }
  }

  function Counted(m: Message, room: RoomId): nat {
    if m.room == room && m.kind.Msg? then 1 else 0
  }

  /** The messages of the room that count towards its hard cap. */
  function CountCapped(messages: seq<Message>, room: RoomId): nat {
    if messages == [] then 0
    else CountCapped(messages[..|messages| - 1], room) + Counted(messages[|messages| - 1], room)
  }

  // ---- writes ----

  function SetParticipant(d: Db, h: Handle, p: Participant): Db {
    d.(participants := d.participants[h := p])
  }

  function InsertRoom(d: Db, id: RoomId, room: Room): (Db, bool) {
    if id in d.rooms then (d, false) else (d.(rooms := d.rooms[id := room]), true)
  }

  /** Refused when the handle is taken in any room, or the instance in this one. */
  ghost function InsertParticipant(d: Db, h: Handle, p: Participant): (Db, bool) {
    if h in d.participants || ByInstance(d, p.room, p.instance).Some? then (d, false)
    else (SetParticipant(d, h, p.(row := d.nextRow)).(nextRow := d.nextRow + 1), true)
  }

  function CastCloseVote(d: Db, h: Handle, at: Time, voter: RequestId): Db {
    if h !in d.participants then d
    else SetParticipant(d, h, d.participants[h].(wantsClose := Some(Vote(at, voter, d.casts)))).(casts := d.casts + 1)
  }

  function RetractCloseVote(d: Db, h: Handle): Db {
    if h !in d.participants then d else SetParticipant(d, h, d.participants[h].(wantsClose := None))
  }

  function ClearExtendVote(d: Db, h: Handle): Db {
    if h !in d.participants then d else SetParticipant(d, h, d.participants[h].(wantsExtend := None))
  }

  ghost function ClearCloseVotes(d: Db, room: RoomId): Db {
    d.(participants := map h | h in d.participants ::
      if d.participants[h].room == room then d.participants[h].(wantsClose := None) else d.participants[h])
  }

  ghost function ClearExtendVotes(d: Db, room: RoomId): Db {
    d.(participants := map h | h in d.participants ::
      if d.participants[h].room == room then d.participants[h].(wantsExtend := None) else d.participants[h])
  }

  function TouchLastPoll(d: Db, h: Handle, now: Time): Db {
    if h !in d.participants then d else SetParticipant(d, h, d.participants[h].(lastPollAt := now))
  }

  function TouchLastActivity(d: Db, room: RoomId, now: Time): Db {
    if room !in d.rooms then d else d.(rooms := d.rooms[room := d.rooms[room].(lastActivityAt := now)])
  }

  function Append(d: Db, m: Message): Db {
    d.(messages := d.messages + [m])
  }

  /** The guarded insert: count and insertion are one statement. */
  function AppendCapped(d: Db, m: Message, cap: int): (Db, bool) {
    if CountCapped(d.messages, m.room) < cap then (Append(d, m), true) else (d, false)
  }

  /** The compare-and-swap on the read cursor. */
  function AdvanceCursor(d: Db, h: Handle, from: nat, to: nat): (Db, bool) {
    if h in d.participants && d.participants[h].cursor == from
    then
      var p := d.participants[h];
      (SetParticipant(d, h, p.(cursor := to, claimed := p.claimed + [to])), true)
    else (d, false)
  }

  ghost function PruneStale(d: Db, room: RoomId, cutoff: Time): Db {
    d.(participants := map h | h in d.participants
      && !(d.participants[h].room == room && d.participants[h].lastPollAt < cutoff) :: d.participants[h])
  }

  function KindOf(to: RoomState): EventKind {
    if to == Archived then ArchiveKind else TransitionKind
  }

  /** The compare-and-swap on the room's state together with its audit row. */
  function UpdateRoomState(d: Db, room: RoomId, from: RoomState, to: RoomState, now: Time, cause: Cause,
                           mover: RequestId)
    : (Db, bool)
  {
    if room in d.rooms && d.rooms[room].state == from
    then
      (d.(rooms := d.rooms[room := d.rooms[room].(state := to, stateChangedAt := now, changedBy := mover)],
          events := d.events + [Event(room, KindOf(to), from, to, now, cause, mover)]), true)
    else (d, false)
  }

  datatype ExtendOutcome = Extended(hardCap: int) | Proposed(votes: nat, needed: nat)

  const EXTEND_STEP := 20

  function CastExtendVote(d: Db, h: Handle, at: Time, voter: RequestId): Db {
    if h !in d.participants then d
    else
      SetParticipant(d, h, d.participants[h].(wantsExtend := Some(Vote(at, voter, d.casts)), lastPollAt := at))
        .(casts := d.casts + 1)
  }

  function RaiseCap(d: Db, room: RoomId, bump: Bump): Db
    requires room in d.rooms
  {
    var r := d.rooms[room];
    d.(rooms := d.rooms[room := r.(hardCap := r.hardCap + EXTEND_STEP, bumps := r.bumps + [bump])])
  }

  /** Vote, count and, at quorum, raise the cap and clear the votes: one transaction. */
  ghost function TryExtend(d: Db, room: RoomId, voter: Handle, now: Time, cutoff: Time, quorum: CloseQuorum,
                           request: RequestId)
    : (Db, ExtendOutcome)
    requires room in d.rooms
  {
    var voted := CastExtendVote(d, voter, now, request);
    var roster := RosterOf(voted, room);
    var needed := quorum.Needed(|PolledSince(roster, cutoff)|);
    var votes := |ExtendVotersSince(roster, cutoff)|;
    if votes >= needed
    then
      var raised := RaiseCap(voted, room, Bump(roster, cutoff, voted.casts));
      (ClearExtendVotes(raised, room), Extended(raised.rooms[room].hardCap))
    else (voted, Proposed(votes, needed))
  }
}
