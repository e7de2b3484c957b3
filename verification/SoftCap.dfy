/** The advisory soft cap: how many messages in a row the agents have sent without a human. */
module SoftCap {
  import opened Tables

  /** The message with this seq is an autonomous turn of the room. */
  predicate IsTurn(messages: seq<Message>, room: RoomId, k: nat) {
    && 1 <= k <= |messages| && messages[k - 1].room == room
    && messages[k - 1].kind.Msg? && !messages[k - 1].fromHuman
  }

  /** There a human speaks, or is consulted: the run of autonomous turns breaks. */
  predicate BreaksRun(messages: seq<Message>, room: RoomId, k: nat) {
    && 1 <= k <= |messages| && messages[k - 1].room == room
    && ((messages[k - 1].kind.Msg? && messages[k - 1].fromHuman) || messages[k - 1].kind.WaitingUser?)
  }

  /** `k` is the highest breaking seq at or below `upTo`, or 0 when there is none. */
  ghost predicate IsBoundary(messages: seq<Message>, room: RoomId, upTo: nat, k: nat) {
    && k <= upTo
    && (k > 0 ==> BreaksRun(messages, room, k))
    && forall j :: k < j <= upTo ==> !BreaksRun(messages, room, j)
  }

  /** The turns with a seq past `boundary` and not past `upTo`. */
  ghost function TurnsWithin(messages: seq<Message>, room: RoomId, boundary: nat, upTo: nat): set<nat> {
    set k | boundary < k <= upTo && IsTurn(messages, room, k)
  }

  /** The counter a reader of the log would keep: back to 0 at every break, one more at every turn. */
  function Run(messages: seq<Message>, room: RoomId, upTo: nat): nat
    requires upTo <= |messages|
  {
    if upTo == 0 then 0
    else if BreaksRun(messages, room, upTo) then 0
    else Run(messages, room, upTo - 1) + if IsTurn(messages, room, upTo) then 1 else 0
  }

  /** What the query counts is what the reader's counter shows, whatever the log holds. */
  lemma {:induction false} QueryIsRun(messages: seq<Message>, room: RoomId, upTo: nat, boundary: nat)
    requires upTo <= |messages| && IsBoundary(messages, room, upTo, boundary)
    ensures |TurnsWithin(messages, room, boundary, upTo)| == Run(messages, room, upTo)
  {
    if upTo == 0 {
      assert TurnsWithin(messages, room, boundary, upTo) == {};
    } else if BreaksRun(messages, room, upTo) {
      assert boundary == upTo;
      assert TurnsWithin(messages, room, boundary, upTo) == {};
    } else {
      assert boundary < upTo;
      QueryIsRun(messages, room, upTo - 1, boundary);
      var shorter := TurnsWithin(messages, room, boundary, upTo - 1);
      assert TurnsWithin(messages, room, boundary, upTo) ==
             if IsTurn(messages, room, upTo) then shorter + {upTo} else shorter;
    }
  }

  /** Later messages never change the count at a message already delivered. */
  lemma {:induction false} RunIsStable(messages: seq<Message>, more: seq<Message>, room: RoomId, upTo: nat)
    requires upTo <= |messages|
    ensures Run(messages + more, room, upTo) == Run(messages, room, upTo)
  {
    if upTo > 0 {
      RunIsStable(messages, more, room, upTo - 1);
    }
  }

  /** No break among these seqs. */
  ghost predicate Unbroken(messages: seq<Message>, room: RoomId, lo: nat, hi: nat) {
    forall k :: lo < k <= hi ==> !BreaksRun(messages, room, k)
  }

  /** Within an unbroken stretch the counter never falls, and rises at each turn. */
  lemma {:induction false} RunGrows(messages: seq<Message>, room: RoomId, lo: nat, hi: nat)
    requires lo <= hi <= |messages| && Unbroken(messages, room, lo, hi)
    ensures Run(messages, room, lo) <= Run(messages, room, hi)
    ensures lo < hi && IsTurn(messages, room, hi) ==> Run(messages, room, lo) < Run(messages, room, hi)
    decreases hi
  {
    if lo < hi {
      RunGrows(messages, room, lo, hi - 1);
    }
  }

  /** Counting up by ones, the counter passes every value on its way, each at a turn. */
  lemma {:induction false} RunReaches(messages: seq<Message>, room: RoomId, lo: nat, hi: nat, n: nat) returns (k: nat)
    requires lo <= hi <= |messages| && Unbroken(messages, room, lo, hi)
    requires Run(messages, room, lo) < n <= Run(messages, room, hi)
    ensures lo < k <= hi && IsTurn(messages, room, k) && Run(messages, room, k) == n
    decreases hi
  {
    assert lo < hi;
    if Run(messages, room, hi - 1) >= n {
      k := RunReaches(messages, room, lo, hi - 1, n);
    } else {
      k := hi;
    }
  }

  /** The delivery of this message tells its reader to bring in the user. */
  ghost predicate Surfaces(messages: seq<Message>, room: RoomId, softCap: nat, k: nat) {
    1 <= k <= |messages| && Run(messages, room, k) + 1 == softCap
  }

  ghost predicate TurnSurfaces(messages: seq<Message>, room: RoomId, softCap: nat, k: nat) {
    Surfaces(messages, room, softCap, k) && IsTurn(messages, room, k)
  }

  /** In each run of turns between two breaks exactly one turn surfaces if the run is long enough, and none
      otherwise. */
  lemma SurfacesOncePerRun(messages: seq<Message>, room: RoomId, softCap: nat, lo: nat, hi: nat)
    requires lo <= hi <= |messages| && Unbroken(messages, room, lo, hi) && Run(messages, room, lo) == 0
    requires softCap >= 2
    ensures (exists k :: lo < k <= hi && TurnSurfaces(messages, room, softCap, k))
            <==> Run(messages, room, hi) >= softCap - 1
    ensures forall j, k :: (&& lo < j <= hi && lo < k <= hi && TurnSurfaces(messages, room, softCap, j)
                            && TurnSurfaces(messages, room, softCap, k)) ==> j == k
  {
    if Run(messages, room, hi) >= softCap - 1 {
      var k := RunReaches(messages, room, lo, hi, softCap - 1);
      assert TurnSurfaces(messages, room, softCap, k);
    }
    forall j, k | lo < j <= k <= hi && TurnSurfaces(messages, room, softCap, j)
        && TurnSurfaces(messages, room, softCap, k)
      ensures j == k && Run(messages, room, hi) >= softCap - 1
    {
      RunGrows(messages, room, j, k);
      RunGrows(messages, room, k, hi);
    }
  }

  /** Other deliveries can surface too: after the turn that reached the mark, every message that is no turn and no break
      does, such as a fold. */
  lemma SignalsSurfaceAgain(messages: seq<Message>, room: RoomId, softCap: nat, k: nat)
    requires k < |messages| && Surfaces(messages, room, softCap, k)
    ensures Surfaces(messages, room, softCap, k + 1)
            <==> !IsTurn(messages, room, k + 1) && (!BreaksRun(messages, room, k + 1) || softCap == 1)
  {
  }
}
