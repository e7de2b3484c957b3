/** Which participants have a long-poll parked right now: reference counts with two ways of forgetting, which answer
    like a ledger that never forgets. */
module Presence {
  import opened Wrappers
  import opened Lifecycle

  /** The connections parked for a handle, and when the latest park ended. */
  datatype ParkState = ParkState(active: nat, lastRelease: Option<Time>)

  type Parks = map<string, ParkState>

  const DEFAULT_GRACE: nat := 10 * SECOND

  /** Clock readings may come out of order; the difference never goes below zero. */
  function Since(now: Time, earlier: Time): nat {
    if now > earlier then now - earlier else 0
  }

  predicate WithinGrace(st: ParkState, grace: nat, now: Time) {
    st.lastRelease.Some? && Since(now, st.lastRelease.value) <= grace
  }

  predicate Kept(st: ParkState, grace: nat, now: Time) {
    st.active > 0 || WithinGrace(st, grace, now)
  }

  function RetainLive(parks: Parks, grace: nat, now: Time): Parks {
    map h | h in parks && Kept(parks[h], grace, now) :: parks[h]
  }

  function Entered(parks: Parks, grace: nat, h: string, now: Time): Parks {
    var kept := RetainLive(parks, grace, now);
    var st := if h in kept then kept[h] else ParkState(0, None);
    kept[h := st.(active := st.active + 1)]
  }

  function Released(parks: Parks, h: string, now: Time): Parks {
    if h !in parks then parks
    else parks[h := ParkState(if parks[h].active > 0 then parks[h].active - 1 else 0, Some(now))]
  }

  function Asked(parks: Parks, grace: nat, h: string, now: Time): (Parks, bool) {
    if h !in parks then (parks, false)
    else if Kept(parks[h], grace, now) then (parks, true)
    else (parks - {h}, false)
  }

  /** The registry, with its map rewritten in place. */
  class Presence {
    var inner: Parks
    const grace: nat

    constructor (grace: nat)
      ensures inner == map[] && this.grace == grace
    {
      this.inner, this.grace := map[], grace;
    }

    /** Drops every entry that is neither parked nor within grace. */
    method Retain(now: Time)
      modifies this`inner
      ensures inner == RetainLive(old(inner), grace, now)
    {
      ghost var start := inner;
      var unseen := inner.Keys;
      while unseen != {}
        invariant unseen <= start.Keys
        invariant forall h :: h in inner <==> h in start && (h in unseen || Kept(start[h], grace, now))
        invariant forall h :: h in inner ==> inner[h] == start[h]
        decreases |unseen|
      {
        var h :| h in unseen;
        if !Kept(inner[h], grace, now) {
          inner := inner - {h};
        }
        unseen := unseen - {h};
      }
    }

    method Enter(h: string, now: Time)
      modifies this`inner
      ensures inner == Entered(old(inner), grace, h, now)
    {
      Retain(now);
      if h !in inner {
        inner := inner[h := ParkState(0, None)];
      }
      inner := inner[h := inner[h].(active := inner[h].active + 1)];
    }

    method IsLive(h: string, now: Time) returns (live: bool)
      modifies this`inner
      ensures (inner, live) == Asked(old(inner), grace, h, now)
    {
      if h !in inner {
        return false;
      }
      if inner[h].active > 0 {
        return true;
      }
      live := WithinGrace(inner[h], grace, now);
      if !live {
        inner := inner - {h};
      }
    }

    /** Dropping a guard, whichever way its park ends. */
    method Release(h: string, now: Time)
      modifies this`inner
      ensures inner == Released(old(inner), h, now)
    {
      if h in inner {
        var active := if inner[h].active > 0 then inner[h].active - 1 else 0;
        inner := inner[h := ParkState(active, Some(now))];
      }
    }
  }

  // ---- the ledger ----

  datatype Use = Enter(handle: string, now: Time) | Drop(handle: string, now: Time) | Query(handle: string, now: Time)

  /** What is true of the connections, with nothing ever forgotten. */
  datatype Ledger = Ledger(guards: multiset<string>, releases: map<string, Time>)

  function Recorded(uses: seq<Use>): Ledger {
    if uses == [] then Ledger(multiset{}, map[])
    else
      var l := Recorded(uses[..|uses| - 1]);
      match uses[|uses| - 1]
      case Enter(h, _) => l.(guards := l.guards + multiset{h})
      case Drop(h, now) => Ledger(l.guards - multiset{h}, l.releases[h := now])
      case Query(_, _) => l
  }

  predicate TrulyLive(l: Ledger, grace: nat, h: string, now: Time) {
    l.guards[h] > 0 || (h in l.releases && now - l.releases[h] <= grace)
  }

  /** The registry after these uses. */
  function Registry(uses: seq<Use>, grace: nat): Parks {
    if uses == [] then map[]
    else
      var parks := Registry(uses[..|uses| - 1], grace);
      match uses[|uses| - 1]
      case Enter(h, now) => Entered(parks, grace, h, now)
      case Drop(h, now) => Released(parks, h, now)
      case Query(h, now) => Asked(parks, grace, h, now).0
  }

  /** The clock never runs back, and a guard is dropped once. */
  ghost predicate Proper(uses: seq<Use>) {
    && (forall i, j :: 0 <= i < j < |uses| ==> uses[i].now <= uses[j].now)
    && (forall i :: 0 <= i < |uses| && uses[i].Drop? ==> Recorded(uses[..i]).guards[uses[i].handle] > 0)
  }

  /** The counts are the outstanding guards; an idle entry knows its latest release; a handle without an entry has no
      guard and is past its grace. */
  ghost predicate Matches(parks: Parks, l: Ledger, grace: nat, now: Time) {
    && (forall h :: h in parks ==>
          && parks[h].active == l.guards[h]
          && (parks[h].active == 0 ==> h in l.releases && parks[h].lastRelease == Some(l.releases[h])))
    && (forall h :: h !in parks ==> l.guards[h] == 0 && (h in l.releases ==> now - l.releases[h] > grace))
    && (forall h :: h in l.releases ==> l.releases[h] <= now)
  }

  lemma RetainMatches(parks: Parks, l: Ledger, grace: nat, now: Time, later: Time)
    requires Matches(parks, l, grace, now) && now <= later
    ensures Matches(RetainLive(parks, grace, later), l, grace, later)
  {
  }

  lemma EnterMatches(parks: Parks, l: Ledger, grace: nat, now: Time, later: Time, h: string)
    requires Matches(parks, l, grace, now) && now <= later
    ensures Matches(Entered(parks, grace, h, later), l.(guards := l.guards + multiset{h}), grace, later)
  {
    RetainMatches(parks, l, grace, now, later);
    hide RetainLive;
  }

  lemma DropMatches(parks: Parks, l: Ledger, grace: nat, now: Time, later: Time, h: string)
    requires Matches(parks, l, grace, now) && now <= later && l.guards[h] > 0
    ensures h in parks && parks[h].active > 0
    ensures Matches(Released(parks, h, later), Ledger(l.guards - multiset{h}, l.releases[h := later]), grace, later)
  {
    assert h in parks;
  }

  lemma QueryMatches(parks: Parks, l: Ledger, grace: nat, now: Time, later: Time, h: string)
    requires Matches(parks, l, grace, now) && now <= later
    ensures Matches(Asked(parks, grace, h, later).0, l, grace, later)
    ensures Asked(parks, grace, h, later).1 <==> TrulyLive(l, grace, h, later)
  {
  }

  lemma UseMatches(parks: Parks, l: Ledger, grace: nat, now: Time, later: Time, h: string)
    requires Matches(parks, l, grace, now) && now <= later
    ensures Matches(Entered(parks, grace, h, later), l.(guards := l.guards + multiset{h}), grace, later)
    ensures l.guards[h] > 0 ==>
      && h in parks && parks[h].active > 0
      && Matches(Released(parks, h, later), Ledger(l.guards - multiset{h}, l.releases[h := later]), grace, later)
    ensures Matches(Asked(parks, grace, h, later).0, l, grace, later)
    ensures Asked(parks, grace, h, later).1 <==> TrulyLive(l, grace, h, later)
  {
    EnterMatches(parks, l, grace, now, later, h);
    if l.guards[h] > 0 { DropMatches(parks, l, grace, now, later, h); }
    QueryMatches(parks, l, grace, now, later, h);
    hide *;
  }

  lemma {:induction false} RegistryMatches(uses: seq<Use>, grace: nat)
    requires Proper(uses)
    ensures uses != [] ==> Matches(Registry(uses, grace), Recorded(uses), grace, uses[|uses| - 1].now)
    ensures uses == [] ==> forall now :: Matches(Registry(uses, grace), Recorded(uses), grace, now)
  {
    if uses != [] {
      var shorter, use := uses[..|uses| - 1], uses[|uses| - 1];
      assert forall i :: 0 <= i < |shorter| ==> shorter[..i] == uses[..i];
      RegistryMatches(shorter, grace);
      var before := if shorter == [] then use.now else shorter[|shorter| - 1].now;
      UseMatches(Registry(shorter, grace), Recorded(shorter), grace, before, use.now, use.handle);
    }
  }

  /** Whatever has been collected: the answer to a query is the truth, the counts are exactly the outstanding guards, a
      drop never finds a count of zero, and after an entry only handles that are parked or within grace are held. */
  lemma PresenceIsTruthful(uses: seq<Use>, grace: nat)
    requires uses != [] && Proper(uses)
    ensures
      var shorter, use := uses[..|uses| - 1], uses[|uses| - 1];
      var parks, l := Registry(shorter, grace), Recorded(shorter);
      && (use.Query? ==> (Asked(parks, grace, use.handle, use.now).1 <==> TrulyLive(l, grace, use.handle, use.now)))
      && (use.Drop? ==> use.handle in parks && parks[use.handle].active > 0)
      && (use.Enter? ==> forall h :: h in Registry(uses, grace) ==> TrulyLive(Recorded(uses), grace, h, use.now))
    ensures forall h ::
      Recorded(uses).guards[h] == if h in Registry(uses, grace) then Registry(uses, grace)[h].active else 0
  {
    var shorter, use := uses[..|uses| - 1], uses[|uses| - 1];
    assert forall i :: 0 <= i < |shorter| ==> shorter[..i] == uses[..i];
    RegistryMatches(uses, grace);
    RegistryMatches(shorter, grace);
    var before := if shorter == [] then use.now else shorter[|shorter| - 1].now;
    UseMatches(Registry(shorter, grace), Recorded(shorter), grace, before, use.now, use.handle);
    if use.Drop? { assert Recorded(uses[..|uses| - 1]).guards[use.handle] > 0; }
    hide Registry, Recorded;
    if use.Enter? {
      var parks := Registry(shorter, grace);
      assert Registry(uses, grace) == Entered(parks, grace, use.handle, use.now);
    }
  }
}
