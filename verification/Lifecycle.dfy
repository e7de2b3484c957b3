/** Room states, the table of legal lifecycle moves, the events implied by elapsed time, and the close quorum. */
module Lifecycle {
  import opened Wrappers

  /** A clock reading, in whole nanoseconds. */
  type Time = int

  const SECOND: int := 1_000_000_000
  const MINUTE: int := 60 * SECOND
  const HOUR: int := 60 * MINUTE
  const DAY: int := 24 * HOUR

  const IDLE_AFTER: int := 24 * HOUR
  const STALE_AFTER: int := 7 * DAY
  const ARCHIVE_AFTER: int := 14 * DAY
  const GHOST_AFTER: int := 15 * MINUTE

  datatype RoomState = Active | Idle | Paused | Stale | Closed | Archived {
    /** Open to messages, signals and extend votes. */
    predicate Writable() {
      Active? || Idle? || Stale?
    }

    predicate Terminal() {
      Closed? || Archived?
    }
  }

  datatype LifecycleEvent =
    | OnMessage | OnPause | OnWake | OnClose | OnIdle | OnStale | OnArchive | OnGhostAllStale

  datatype IllegalTransition = IllegalTransition(from: RoomState, event: LifecycleEvent)

  function Transition(state: RoomState, event: LifecycleEvent): Result<RoomState, IllegalTransition> {
    match (state, event)
    case (Active, OnMessage) => Ok(Active)
    case (Active, OnPause) => Ok(Paused)
    case (Active, OnClose) => Ok(Closed)
    case (Active, OnIdle) => Ok(Idle)
    case (Active, OnGhostAllStale) => Ok(Idle)
    case (Idle, OnMessage) => Ok(Active)
    case (Idle, OnPause) => Ok(Paused)
    case (Idle, OnWake) => Ok(Active)
    case (Idle, OnClose) => Ok(Closed)
    case (Idle, OnStale) => Ok(Stale)
    case (Paused, OnWake) => Ok(Active)
    case (Paused, OnClose) => Ok(Closed)
    case (Stale, OnMessage) => Ok(Active)
    case (Stale, OnClose) => Ok(Closed)
    case (Stale, OnArchive) => Ok(Archived)
    case (Closed, OnArchive) => Ok(Archived)
    case _ => Err(IllegalTransition(state, event))
  }

  /** Some event of the table leads from one state to the other. */
  ghost predicate Edge(from: RoomState, to: RoomState) {
    exists e :: Transition(from, e) == Ok(to)
  }

  /** What the table says about ending: a closed room can only be archived, an archived one not moved at all. */
  lemma TerminalStatesHold(from: RoomState, to: RoomState)
    requires Edge(from, to) && from.Terminal()
    ensures from == Closed && to == Archived
  {
  }

  predicate NoLivePoller(polls: set<Time>, now: Time) {
    forall last <- polls :: now - last > GHOST_AFTER
  }

  function ComputeTimeEvent(state: RoomState, lastActivityAt: Time, stateChangedAt: Time, polls: set<Time>, now: Time)
    : (r: Option<LifecycleEvent>)
    ensures r.Some? ==> Transition(state, r.value).Ok?
    ensures state.Active? && now - lastActivityAt >= 24 * HOUR ==> r.Some?
    ensures state.Closed? || state.Stale? ==> (r.Some? <==> now - stateChangedAt >= 14 * DAY)
    ensures state.Paused? || state.Archived? ==> r.None?
  {
    match state
    case Active =>
      if now - lastActivityAt >= IDLE_AFTER then Some(OnIdle)
      else if polls != {} && NoLivePoller(polls, now) then Some(OnGhostAllStale)
      else None
    case Idle =>
      if now - lastActivityAt >= STALE_AFTER && NoLivePoller(polls, now) then Some(OnStale) else None
    case Stale =>
      if now - stateChangedAt >= ARCHIVE_AFTER then Some(OnArchive) else None
    case Closed =>
      if now - stateChangedAt >= ARCHIVE_AFTER then Some(OnArchive) else None
    case Paused => None
    case Archived => None
  }

  datatype CloseQuorum = All | Majority {
    function Needed(live: nat): (n: nat)
      ensures n >= 1
      ensures live >= 1 ==> n <= live
      ensures All? && live >= 1 ==> n == live
      ensures Majority? ==> 2 * n > live
      ensures Majority? && live >= 1 ==> 2 * (n - 1) <= live
    {
      var n := match this
        case All => live
        case Majority => live / 2 + 1;
      if n < 1 then 1 else n
    }
  }
}
