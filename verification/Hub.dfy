/** The wakeup registry: one broadcast channel per room, carrying pings without content. A receiver keeps a bounded
    queue and may fall behind, yet what a waiter relies on is one bit: whether anything has been rung since it last
    woke. */
module Hub {
  import opened Tables

  const CAPACITY: nat := 16

  /** The pings waiting for a receiver; once it has lost some, the first receive reports that it lags. */
  datatype Queue = Queue(waiting: nat, lagged: bool) {
    /** The next receive returns at once. */
    predicate Pinged() {
      waiting > 0 || lagged
    }

    function Pushed(): Queue {
      if waiting < CAPACITY then Queue(waiting + 1, lagged) else Queue(waiting, true)
    }
  }

  datatype Receipt = Ping | Lagged | Pending

  function Received(q: Queue): (Queue, Receipt) {
    if q.lagged then (q.(lagged := false), Lagged)
    else if q.waiting > 0 then (q.(waiting := q.waiting - 1), Ping)
    else (q, Pending)
  }

  type Receiver = nat
  type Channels = map<RoomId, map<Receiver, Queue>>

  ghost predicate Subscribed(channels: Channels, room: RoomId, rx: Receiver) {
    room in channels && rx in channels[room]
  }

  class Hub {
    var channels: Channels
    var receivers: nat

    ghost predicate Valid()
      reads this
    {
      forall room: RoomId, rx: Receiver :: Subscribed(channels, room, rx) ==> rx < receivers
    }

    constructor ()
      ensures Valid() && channels == map[]
    {
      channels, receivers := map[], 0;
    }

    /** A new receiver, with nothing waiting for it; everybody else's queue is as it was. */
    method Subscribe(room: RoomId) returns (rx: Receiver)
      requires Valid()
      modifies this
      ensures Valid() && !Subscribed(old(channels), room, rx) && Subscribed(channels, room, rx)
      ensures !channels[room][rx].Pinged()
      ensures forall r: RoomId, x: Receiver ::
          Subscribed(old(channels), r, x) ==> Subscribed(channels, r, x) && channels[r][x] == old(channels)[r][x]
      ensures forall r: RoomId, x: Receiver ::
          Subscribed(channels, r, x) && !(r == room && x == rx) ==> Subscribed(old(channels), r, x)
    {
      rx := receivers;
      assert !Subscribed(channels, room, rx);
      if room !in channels {
        channels := channels[room := map[]];
      }
      var queues: map<Receiver, Queue> := channels[room];
      queues := queues[rx := Queue(0, false)];
      channels := channels[room := queues];
      receivers := receivers + 1;
      forall r: RoomId, x: Receiver | Subscribed(channels, r, x) ensures x < receivers {
        assert (r == room && x == rx) || Subscribed(old(channels), r, x);
      }
    }

    /** Rings every current receiver of the room and nobody else. */
    method Notify(room: RoomId)
      requires Valid()
      modifies this
      ensures Valid() && forall r: RoomId, x: Receiver ::
          Subscribed(channels, r, x) <==> Subscribed(old(channels), r, x)
      ensures forall r: RoomId, x: Receiver :: Subscribed(channels, r, x) ==>
        channels[r][x] == if r == room then old(channels)[r][x].Pushed() else old(channels)[r][x]
    {
      if room !in channels {
        channels := channels[room := map[]];
      }
      var queues := channels[room];
      channels := channels[room := map x | x in queues :: queues[x].Pushed()];
      forall r: RoomId, x: Receiver | Subscribed(channels, r, x) ensures x < receivers {
        assert Subscribed(old(channels), r, x);
      }
    }

    method Receive(room: RoomId, rx: Receiver) returns (receipt: Receipt)
      requires Valid() && Subscribed(channels, room, rx)
      modifies this
      ensures Valid() && forall r: RoomId, x: Receiver ::
          Subscribed(channels, r, x) <==> Subscribed(old(channels), r, x)
      ensures (channels[room][rx], receipt) == Received(old(channels)[room][rx])
      ensures forall r: RoomId, x: Receiver ::
          Subscribed(channels, r, x) && !(r == room && x == rx) ==> channels[r][x] == old(channels)[r][x]
    {
      var q := channels[room][rx];
      if q.lagged {
        receipt, q := Lagged, q.(lagged := false);
      } else if q.waiting > 0 {
        receipt, q := Ping, q.(waiting := q.waiting - 1);
      } else {
        receipt := Pending;
      }
      var queues: map<Receiver, Queue> := channels[room];
      queues := queues[rx := q];
      channels := channels[room := queues];
      forall r: RoomId, x: Receiver | Subscribed(channels, r, x) ensures x < receivers {
        assert Subscribed(old(channels), r, x);
      }
    }
  }

  // ---- one receiver over its life ----

  datatype Use = Rung | Receiving

  function After(uses: seq<Use>): Queue {
    if uses == [] then Queue(0, false)
    else
      var q := After(uses[..|uses| - 1]);
      match uses[|uses| - 1]
      case Rung => q.Pushed()
      case Receiving => Received(q).0
  }

  /** The n-th use is a receive, and it returns. */
  ghost predicate Wakes(uses: seq<Use>, n: nat) {
    n < |uses| && uses[n].Receiving? && !Received(After(uses[..n])).1.Pending?
  }

  /** A receive returns exactly when the queue is pinged, and a ring always pings it. */
  lemma PingIsSeen(q: Queue)
    ensures q.Pushed().Pinged()
    ensures Received(q).1.Pending? <==> !q.Pinged()
    ensures !q.Pinged() ==> Received(q).0 == q
  {
  }

  /** However many rings coalesce or are lost to the bound: after a ring the receiver is pinged until it has woken. */
  lemma {:induction false} RingLastsUntilWake(uses: seq<Use>, i: nat)
    requires i < |uses| && uses[i].Rung?
    requires forall n :: i < n < |uses| ==> !Wakes(uses, n)
    ensures After(uses).Pinged()
  {
    var shorter := uses[..|uses| - 1];
    if i < |uses| - 1 {
      forall n | i < n < |shorter| ensures !Wakes(shorter, n) {
        assert shorter[..n] == uses[..n];
        assert !Wakes(uses, n);
      }
      RingLastsUntilWake(shorter, i);
      assert !Wakes(uses, |uses| - 1);
    }
  }

  function Rings(uses: seq<Use>): nat {
    if uses == [] then 0 else Rings(uses[..|uses| - 1]) + if uses[|uses| - 1].Rung? then 1 else 0
  }

  /** And without a ring it never wakes. */
  lemma {:induction false} NoWakeWithoutRing(uses: seq<Use>)
    ensures Rings(uses) == 0 ==> !After(uses).Pinged()
  {
    if uses != [] { NoWakeWithoutRing(uses[..|uses| - 1]); }
  }
}
