/** What a session does about its background polls when it stops: one poll per declared connection, no other touched. */
module Reconcile {
  import opened Wrappers
  import opened PollCommand

  datatype ReconcileAction = Fine | AdviseRelaunch | KillExtras

  function ActionFor(n: nat, pollHint: bool): ReconcileAction {
    if n == 1 then Fine
    else if n == 0 then if pollHint then Fine else AdviseRelaunch
    else KillExtras
  }

  datatype KillOrder = KillOrder(room: string, identity: Option<string>)

  datatype StopPlan = StopPlan(kills: seq<KillOrder>, relaunch: seq<string>)

  /** What is known of the polls of a pair: how many processes, and whether something else keeps the room alive. */
  type Count = (string, Option<string>) -> nat
  type Hint = (string, Option<string>) -> bool

  function OrderOf(c: Connection): KillOrder {
    KillOrder(c.room, c.identity)
  }

  function KillsFor(conns: seq<Connection>, count: Count): seq<KillOrder> {
    if conns == [] then []
    else
      var c := conns[|conns| - 1];
      KillsFor(conns[..|conns| - 1], count) + if count(c.room, c.identity) > 1 then [OrderOf(c)] else []
  }

  function RelaunchesFor(conns: seq<Connection>, count: Count, hint: Hint): seq<string> {
    if conns == [] then []
    else
      var c := conns[|conns| - 1];
      RelaunchesFor(conns[..|conns| - 1], count, hint)
      + if count(c.room, c.identity) == 0 && !hint(c.room, c.identity)
        then [PollCommand.PollCommand(c.room, c.model, c.identity)] else []
  }

  /** The advice for this connection is due: it has no poll, and nothing says that one is on its way or was just
      there. */
  ghost predicate Bereft(c: Connection, count: Count, launched: Hint, recentlyPolled: Hint) {
    && count(c.room, c.identity) == 0
    && !launched(c.room, c.identity) && !recentlyPolled(c.room, c.identity)
  }

  ghost predicate IsDue(conns: seq<Connection>, count: Count, launched: Hint, recentlyPolled: Hint, command: string) {
    exists c :: c in conns && Bereft(c, count, launched, recentlyPolled)
      && command == PollCommand.PollCommand(c.room, c.model, c.identity)
  }

  /** Advice goes out for exactly those. */
  lemma {:induction false} AdviceIsForTheBereft(conns: seq<Connection>, count: Count, launched: Hint,
                                                recentlyPolled: Hint, hint: Hint, command: string)
    requires forall r, i :: hint(r, i) <==> launched(r, i) || recentlyPolled(r, i)
    ensures command in RelaunchesFor(conns, count, hint) <==> IsDue(conns, count, launched, recentlyPolled, command)
  {
    hide PollCommand.PollCommand;
    if conns != [] {
      var shorter, c := conns[..|conns| - 1], conns[|conns| - 1];
      AdviceIsForTheBereft(shorter, count, launched, recentlyPolled, hint, command);
      assert IsDue(conns, count, launched, recentlyPolled, command)
        <==> IsDue(shorter, count, launched, recentlyPolled, command)
             || (Bereft(c, count, launched, recentlyPolled)
                 && command == PollCommand.PollCommand(c.room, c.model, c.identity)) by {
        assert conns == shorter + [c];
      }
    }
  }

  method PlanStop(conns: seq<Connection>, count: Count, launched: Hint, recentlyPolled: Hint) returns (plan: StopPlan)
    ensures plan.kills == KillsFor(conns, count)
    ensures plan.relaunch == RelaunchesFor(conns, count, (r, i) => launched(r, i) || recentlyPolled(r, i))
    ensures forall o :: o in plan.kills <==>
      count(o.room, o.identity) > 1 && exists c :: c in conns && OrderOf(c) == o
    ensures forall command :: command in plan.relaunch <==> IsDue(conns, count, launched, recentlyPolled, command)
  {
    KillsAreCrowded(conns, count);
    forall command
      ensures command in RelaunchesFor(conns, count, (r, i) => launched(r, i) || recentlyPolled(r, i))
              <==> IsDue(conns, count, launched, recentlyPolled, command)
    {
      AdviceIsForTheBereft(conns, count, launched, recentlyPolled,
                           (r, i) => launched(r, i) || recentlyPolled(r, i), command);
    }
    plan := StopPlan([], []);
    var hint: Hint := (r, i) => launched(r, i) || recentlyPolled(r, i);
    for k := 0 to |conns|
      invariant plan.kills == KillsFor(conns[..k], count)
      invariant plan.relaunch == RelaunchesFor(conns[..k], count, hint)
    {
      var c := conns[k];
      assert conns[..k + 1][..k] == conns[..k];
      var n := count(c.room, c.identity);
      match ActionFor(n, hint(c.room, c.identity)) {
        case Fine =>
        case KillExtras => plan := plan.(kills := plan.kills + [OrderOf(c)]);
        case AdviseRelaunch =>
          plan := plan.(relaunch := plan.relaunch + [PollCommand.PollCommand(c.room, c.model, c.identity)]);
      }
    }
    assert conns[..|conns|] == conns;
  }

  type Pid = nat
  type Processes = map<Pid, string>

  /** The processes that are polls of this pair. */
  function Polls(table: Processes, room: string, identity: Option<string>): set<Pid> {
    set p | p in table && PollMatches(table[p], room, identity)
  }

  ghost predicate Distinct(pids: seq<Pid>) {
    forall i, j :: 0 <= i < j < |pids| ==> pids[i] != pids[j]
  }

  /** The machine's processes. */
  class ProcessTable {
    var running: Processes

    constructor (running: Processes)
      ensures this.running == running
    {
      this.running := running;
    }

    /** The pids of the matching polls, in some order. */
    method MatchingPolls(room: string, identity: Option<string>) returns (pids: seq<Pid>)
      ensures Distinct(pids) && forall p :: p in pids <==> p in Polls(running, room, identity)
    {
      pids := [];
      var rest := running.Keys;
      while rest != {}
        invariant rest <= running.Keys && Distinct(pids)
        invariant forall p :: p in pids <==> p in running.Keys - rest && PollMatches(running[p], room, identity)
        decreases |rest|
      {
        var p :| p in rest;
        if PollMatches(running[p], room, identity) {
          pids := pids + [p];
        }
        rest := rest - {p};
      }
    }

    method KillPid(pid: Pid)
      modifies this
      ensures running == old(running) - {pid}
    {
      running := running - {pid};
    }

    /** Kills all polls of the pair but the first listed. */
    method KillSurplusPolls(room: string, identity: Option<string>)
      modifies this
      ensures Thinned(old(running), running, room, identity)
    {
      ghost var start := running;
      var pids := MatchingPolls(room, identity);
      var surplus := if pids == [] then [] else pids[1..];
      for k := 0 to |surplus|
        invariant forall p :: p in running <==> p in start && p !in surplus[..k]
        invariant forall p :: p in running ==> running[p] == start[p]
      {
        KillPid(surplus[k]);
      }
      assert surplus[..|surplus|] == surplus;
      SurplusGone(start, running, room, identity, pids);
    }
  }

  lemma SurplusGone(before: Processes, after: Processes, room: string, identity: Option<string>, pids: seq<Pid>)
    requires Distinct(pids) && forall p :: p in pids <==> p in Polls(before, room, identity)
    requires forall p :: p in after <==> p in before && p !in if pids == [] then [] else pids[1..]
    requires forall p :: p in after ==> after[p] == before[p]
    ensures Thinned(before, after, room, identity)
  {
    hide PollMatches;
    if pids != [] {
      var tail := pids[1..];
      forall p | p in tail ensures p in pids && p != pids[0] {
        var i :| 0 <= i < |tail| && tail[i] == p;
        assert pids[i + 1] == p;
      }
      forall p | p in pids ensures p == pids[0] || p in tail {
        var i :| 0 <= i < |pids| && pids[i] == p;
        assert i > 0 ==> tail[i - 1] == p;
      }
      assert pids[0] in Polls(before, room, identity);
      assert Polls(after, room, identity) == {pids[0]};
    }
  }

  /** Of the polls of this pair one is left if there was any; all other processes are left alone. */
  ghost predicate Thinned(before: Processes, after: Processes, room: string, identity: Option<string>) {
    && (forall p :: p in after ==> p in before && after[p] == before[p])
    && (forall p :: p in before && !PollMatches(before[p], room, identity) ==> p in after)
    && (Polls(before, room, identity) != {} ==> |Polls(after, room, identity)| == 1)
  }

  /** The Stop pass: plan against the processes there are, then thin out the pairs with too many polls. */
  method StopPass(table: ProcessTable, conns: seq<Connection>, launched: Hint, recentlyPolled: Hint)
    returns (relaunch: seq<string>)
    modifies table
    ensures OnlyDeclaredGone(old(table.running), table.running, conns)
    ensures forall c <- conns :: Apart(conns, c) ==> OneLeft(old(table.running), table.running, c)
    ensures relaunch == RelaunchesFor(conns, (r, i) => |Polls(old(table.running), r, i)|,
                                      (r, i) => launched(r, i) || recentlyPolled(r, i))
    ensures forall command :: command in relaunch <==>
      IsDue(conns, (r, i) => |Polls(old(table.running), r, i)|, launched, recentlyPolled, command)
  {
    var start := table.running;
    var count: Count := (r, i) => |Polls(start, r, i)|;
    var plan := PlanStop(conns, count, launched, recentlyPolled);
    KillsAreCrowded(conns, count);
    hide PollMatches, Polls;
    for k := 0 to |plan.kills|
      invariant OnlyDeclaredGone(start, table.running, conns)
      invariant forall c <- conns :: Apart(conns, c) ==> Settled(start, table.running, plan.kills[..k], c)
    {
      ghost var now, o := table.running, plan.kills[k];
      assert plan.kills[..k + 1] == plan.kills[..k] + [o];
      assert o in plan.kills;
      var pair := plan.kills[k];
      table.KillSurplusPolls(pair.room, pair.identity);
      StillOnlyDeclared(start, now, table.running, conns, o);
      forall c | c in conns && Apart(conns, c) ensures Settled(start, table.running, plan.kills[..k + 1], c) {
        OneOrderMore(start, now, table.running, conns, plan.kills[..k], o, c);
      }
    }
    assert plan.kills[..|plan.kills|] == plan.kills;
    relaunch := plan.relaunch;
    forall c | c in conns && Apart(conns, c) ensures OneLeft(start, table.running, c) {
      assert Settled(start, table.running, plan.kills, c);
      assert OrderOf(c) in plan.kills <==> count(c.room, c.identity) > 1;
    }
  }

  /** No process appears or changes, and none is gone that is no poll of a declared pair. */
  ghost predicate OnlyDeclaredGone(before: Processes, after: Processes, conns: seq<Connection>) {
    && (forall p :: p in after ==> p in before && after[p] == before[p])
    && (forall p :: p in before && p !in after ==> exists c :: c in conns && PollMatches(before[p], c.room, c.identity))
  }

  lemma StillOnlyDeclared(before: Processes, now: Processes, next: Processes, conns: seq<Connection>, o: KillOrder)
    requires OnlyDeclaredGone(before, now, conns) && Thinned(now, next, o.room, o.identity)
    requires exists c :: c in conns && OrderOf(c) == o
    ensures OnlyDeclaredGone(before, next, conns)
  {
    hide PollMatches;
    var c :| c in conns && OrderOf(c) == o;
    assert c.room == o.room && c.identity == o.identity;
  }

  /** The connection is declared for a whole room, or none is declared for the whole of its room. */
  ghost predicate Apart(conns: seq<Connection>, c: Connection) {
    c.identity.None? || forall o <- conns :: o.identity.None? ==> o.room != c.room
  }

  /** The connection has one poll left if it had several, and otherwise just those it had. */
  ghost predicate OneLeft(before: Processes, after: Processes, c: Connection) {
    var had, has := Polls(before, c.room, c.identity), Polls(after, c.room, c.identity);
    if |had| > 1 then |has| == 1 && has <= had else has == had
  }

  /** The polls of a connection after these orders. A pair that belongs to the room of an unscoped connection may have
      lost polls already, but not the last one. */
  ghost predicate Settled(before: Processes, now: Processes, done: seq<KillOrder>, c: Connection) {
    var had, has := Polls(before, c.room, c.identity), Polls(now, c.room, c.identity);
    if OrderOf(c) in done then |has| == 1 && has <= had && |had| > 1
    else has == had || (c.identity.None? && has != {} && has <= had && |had| > 1)
  }

  /** An order for another room, or for another pair of the room, leaves a pair alone. */
  lemma OrderElsewhere(now: Processes, next: Processes, o: KillOrder, c: Connection)
    requires Thinned(now, next, o.room, o.identity)
    requires o.room != c.room || (c.identity.Some? && o.identity.Some? && c.identity != o.identity)
    ensures Polls(next, c.room, c.identity) == Polls(now, c.room, c.identity)
  {
    var was, has := Polls(now, c.room, c.identity), Polls(next, c.room, c.identity);
    forall p | p in was ensures p in has {
      assert !PollMatches(now[p], o.room, o.identity);
    }
    assert has == was;
  }

  /** An order for a pair of the room leaves the room a poll. */
  lemma OrderWithin(now: Processes, next: Processes, room: string, identity: string)
    requires Thinned(now, next, room, Some(identity)) && Polls(now, room, None) != {}
    ensures var was, has := Polls(now, room, None), Polls(next, room, None); has <= was && has != {}
  {
    var pair, left := Polls(now, room, Some(identity)), Polls(next, room, Some(identity));
    if pair == {} {
      var p :| p in Polls(now, room, None);
      assert p !in pair;
      assert p in Polls(next, room, None);
    } else {
      assert left != {};
      var p :| p in left;
      assert p in Polls(next, room, None);
    }
  }

  lemma FewerPolls(before: Processes, room: string, identity: string)
    ensures |Polls(before, room, Some(identity))| <= |Polls(before, room, None)|
  {
    Smaller(Polls(before, room, Some(identity)), Polls(before, room, None));
  }

  lemma {:induction false} Smaller(a: set<Pid>, b: set<Pid>)
    requires a <= b
    ensures |a| <= |b| && (a != {} && |b| <= 1 ==> a == b)
  {
    if a != {} {
      var x :| x in a;
      Smaller(a - {x}, b - {x});
    }
  }

  /** Thinning out one pair settles it and unsettles no other. */
  lemma OneOrderMore(before: Processes, now: Processes, next: Processes, conns: seq<Connection>, done: seq<KillOrder>,
                     o: KillOrder, c: Connection)
    requires Apart(conns, c) && Thinned(now, next, o.room, o.identity) && exists d :: d in conns && OrderOf(d) == o
    requires |Polls(before, o.room, o.identity)| > 1 && Settled(before, now, done, c)
    ensures Settled(before, next, done + [o], c)
  {
    var d :| d in conns && OrderOf(d) == o;
    var was, has := Polls(now, c.room, c.identity), Polls(next, c.room, c.identity);
    assert has <= was;
    if OrderOf(c) == o {
      assert was != {};
    } else if o.room == c.room && c.identity.None? {
      assert was != {} by { FewerPolls(before, c.room, o.identity.value); }
      OrderWithin(now, next, c.room, o.identity.value);
      FewerPolls(before, c.room, o.identity.value);
      Smaller(has, was);
    } else {
      OrderElsewhere(now, next, o, c);
    }
  }

  /** Orders go out for exactly the connections with several polls. */
  lemma {:induction false} KillsAreCrowded(conns: seq<Connection>, count: Count)
    ensures forall o :: o in KillsFor(conns, count) <==>
      count(o.room, o.identity) > 1 && exists c :: c in conns && OrderOf(c) == o
  {
    if conns != [] {
      KillsAreCrowded(conns[..|conns| - 1], count);
    }
  }

  /** Following the advice restores the pair, and no other: the relaunched process is its one poll. */
  lemma RelaunchRestores(table: Processes, c: Connection, pid: Pid, room: string, identity: string)
    requires Sluggish(c) && c.identity.Some? && pid !in table && Polls(table, c.room, c.identity) == {}
    ensures var relaunched := table[pid := PollCommand.PollCommand(c.room, c.model, c.identity)];
      && Polls(relaunched, c.room, c.identity) == {pid}
      && (Some(identity) != c.identity || room != c.room ==>
            Polls(relaunched, room, Some(identity)) == Polls(table, room, Some(identity)))
  {
    var command := PollCommand.PollCommand(c.room, c.model, c.identity);
    DeclaredIsRecognised(c, room, identity);
    DeclaredIsRecognised(c, c.room, c.identity.value);
    hide PollMatches, PollCommand.PollCommand, Sluggish, Parse, Declare;
    var relaunched := table[pid := command];
    forall p ensures p in Polls(relaunched, c.room, c.identity) <==> p == pid {
      assert p in table ==> p !in Polls(table, c.room, c.identity);
    }
  }

  /** A connection declared without an identity has no such safety. After a pass a session's poll of its room is still
      there if and only if it is the one poll left of the room: so of two sessions' polls one is killed. */
  lemma RoomScopedKillsOthers(before: Processes, after: Processes, conns: seq<Connection>, c: Connection, p: Pid,
                              q: Pid, mine: string, theirs: string)
    requires c.identity.None? && OnlyDeclaredGone(before, after, conns) && OneLeft(before, after, c)
    requires p in before && q in before && mine != theirs
    requires PollMatches(before[p], c.room, Some(mine)) && PollMatches(before[q], c.room, Some(theirs))
    ensures p in after <==> Polls(after, c.room, None) == {p}
    ensures p !in after || q !in after
  {
    hide PollMatches;
    RoomScopedMatchesAll(before[p], c.room, mine);
    RoomScopedMatchesAll(before[q], c.room, theirs);
    if p == q { MatchesOnePair(before[p], c.room, mine, c.room, theirs); }
    var had, left := Polls(before, c.room, None), Polls(after, c.room, None);
    assert {p, q} <= had;
    Smaller({p, q}, had);
    if p in left { Smaller({p}, left); }
    assert p in left && q in left ==> left == {p, q} + (left - {p, q});
  }

  lemma RoomScopedMatchesAll(cmdline: string, room: string, identity: string)
    requires PollMatches(cmdline, room, Some(identity))
    ensures PollMatches(cmdline, room, None)
  {
  }
}
