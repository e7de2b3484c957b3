/** The client's background poll: it waits, holds through a missing or silent counterpart, rides out errors, and hands
    back on anything that needs its agent. */
module PollLoop {
  import opened Wrappers

  datatype WaitStatus =
    | PausedByTimeout | AwaitingCounterpart | CounterpartStale
    | CloseProposed | ExtendProposed | Paused | Closed | Archived | Unknown(wire: string)

  datatype Response = Message | Timeout(status: WaitStatus, retryAfter: Option<nat>)

  /** What one wait brings: a response, or an error. */
  datatype Answer = Answered(response: Response) | Errored

  datatype Action =
    | Deliver | ExitStatus | GiveUpEmpty | GiveUpJoin | GiveUpStale
    | Wait(secs: nat, announceStale: bool)

  /** The bounds and cadences of one poll; a bound of zero means none. */
  datatype Settings = Settings(
    maxPolls: nat, joinBackoff: nat, maxJoinWait: nat, staleBackoff: nat, maxStaleWait: nat, errorBackoff: nat)

  datatype Counters = Counters(emptyPolls: nat, joinWait: nat, staleWait: nat, staleAnnounced: bool)

  const SAFE_JOIN_WAIT_CAP_SECS: nat := 3600
  const QUIET_ESCALATE_AFTER_SECS: nat := 1800
  const QUIET_BACKOFF_CAP_SECS: nat := 60
  const MIN_REPOLL_SLEEP_SECS: nat := 1
  const MIN_BACKOFF_SECS: nat := 1
  const MAX_CONSECUTIVE_ERRORS: nat := 5

  function Max(a: nat, b: nat): nat {
    if a >= b then a else b
  }

  /** No setting switches the bound on the join wait off. */
  function EffectiveMaxJoinWait(secs: nat): (r: nat)
    ensures 1 <= r <= SAFE_JOIN_WAIT_CAP_SECS
    ensures 1 <= secs <= SAFE_JOIN_WAIT_CAP_SECS ==> r == secs
  {
    if secs == 0 || secs > SAFE_JOIN_WAIT_CAP_SECS then SAFE_JOIN_WAIT_CAP_SECS else secs
  }

  function QuietBackoff(base: nat, quiet: nat): (r: nat)
    ensures Max(base, MIN_BACKOFF_SECS) <= r <= Max(base, QUIET_BACKOFF_CAP_SECS)
  {
    Max(if quiet < QUIET_ESCALATE_AFTER_SECS then base else Max(base, QUIET_BACKOFF_CAP_SECS), MIN_BACKOFF_SECS)
  }

  /** The decision on one response. */
  function Decision(c: Settings, k: Counters, response: Response): (Counters, Action) {
    match response
    case Message => (k.(staleWait := 0, staleAnnounced := false), Deliver)
    case Timeout(PausedByTimeout, retryAfter) =>
      var k' := Counters(k.emptyPolls + 1, k.joinWait, 0, false);
      if c.maxPolls != 0 && k'.emptyPolls >= c.maxPolls then (k', GiveUpEmpty)
      else (k', Wait(Max(if retryAfter.Some? then retryAfter.value else 0, MIN_REPOLL_SLEEP_SECS), false))
    case Timeout(AwaitingCounterpart, _) =>
      if c.maxJoinWait != 0 && k.joinWait >= c.maxJoinWait then (k, GiveUpJoin)
      else
        var secs := QuietBackoff(c.joinBackoff, k.joinWait);
        (k.(joinWait := k.joinWait + secs), Wait(secs, false))
    case Timeout(CounterpartStale, _) =>
      if c.maxStaleWait != 0 && k.staleWait >= c.maxStaleWait then (k, GiveUpStale)
      else
        var secs := QuietBackoff(c.staleBackoff, k.staleWait);
        (k.(staleWait := k.staleWait + secs, staleAnnounced := true), Wait(secs, !k.staleAnnounced))
    case _ => (k, ExitStatus)
  }

  /** Nothing the poll can wait through: its agent has to act. */
  predicate NeedsItsAgent(status: WaitStatus) {
    || status.CloseProposed? || status.ExtendProposed?
    || status.Paused? || status.Closed? || status.Archived? || status.Unknown?
  }

  class PollState {
    const settings: Settings
    var emptyPolls: nat
    var joinWait: nat
    var staleWait: nat
    var staleAnnounced: bool

    function Snapshot(): Counters
      reads this
    {
      Counters(emptyPolls, joinWait, staleWait, staleAnnounced)
    }

    constructor (settings: Settings)
      ensures Snapshot() == START && this.settings == Floored(settings)
    {
      this.settings := settings.(joinBackoff := Max(settings.joinBackoff, MIN_BACKOFF_SECS),
                                 staleBackoff := Max(settings.staleBackoff, MIN_BACKOFF_SECS));
      emptyPolls, joinWait, staleWait, staleAnnounced := 0, 0, 0, false;
    }

    method ClearStale()
      modifies this
      ensures Snapshot() == old(Snapshot()).(staleWait := 0, staleAnnounced := false)
    {
      staleWait := 0;
      staleAnnounced := false;
    }

    method PollDecision(response: Response) returns (action: Action)
      modifies this
      ensures (Snapshot(), action) == Decision(settings, old(Snapshot()), response)
      ensures action.Deliver? <==> response.Message?
      ensures action.ExitStatus? <==> response.Timeout? && NeedsItsAgent(response.status)
    {
      match response
      case Message =>
        ClearStale();
        return Deliver;
      case Timeout(status, retryAfter) =>
        match status {
          case PausedByTimeout =>
            ClearStale();
            emptyPolls := emptyPolls + 1;
            if settings.maxPolls != 0 && emptyPolls >= settings.maxPolls {
              return GiveUpEmpty;
            }
            var hint := if retryAfter.Some? then retryAfter.value else 0;
            return Wait(Max(hint, MIN_REPOLL_SLEEP_SECS), false);
          case AwaitingCounterpart =>
            if settings.maxJoinWait != 0 && joinWait >= settings.maxJoinWait {
              return GiveUpJoin;
            }
            var secs := QuietBackoff(settings.joinBackoff, joinWait);
            joinWait := joinWait + secs;
            return Wait(secs, false);
          case CounterpartStale =>
            if settings.maxStaleWait != 0 && staleWait >= settings.maxStaleWait {
              return GiveUpStale;
            }
            var announce := !staleAnnounced;
            staleAnnounced := true;
            var secs := QuietBackoff(settings.staleBackoff, staleWait);
            staleWait := staleWait + secs;
            return Wait(secs, announce);
          case _ =>
            return ExitStatus;
        }
    }
  }

  // ---- the loop ----

  datatype Progress =
    | Running(k: Counters, errors: nat)
    | Done(k: Counters, action: Action)
    | Failed

  /** What the loop does besides waiting: sleep, and tell a watching human once that it is holding the line. */
  datatype Effect = Sleep(secs: nat) | HeadsUp

  const START := Counters(0, 0, 0, false)

  function Floored(c: Settings): Settings {
    c.(joinBackoff := Max(c.joinBackoff, MIN_BACKOFF_SECS), staleBackoff := Max(c.staleBackoff, MIN_BACKOFF_SECS))
  }

  /** One turn of the loop. */
  function Turn(c: Settings, p: Progress, answer: Answer): (Progress, seq<Effect>) {
    if !p.Running? then (p, [])
    else
      match answer
      case Errored =>
        if p.errors + 1 >= MAX_CONSECUTIVE_ERRORS then (Failed, [])
        else (p.(errors := p.errors + 1), [Sleep(c.errorBackoff)])
      case Answered(response) =>
        var (k', action) := Decision(c, p.k, response);
        if action.Wait?
        then (Running(k', 0), (if action.announceStale then [HeadsUp] else []) + [Sleep(action.secs)])
        else (Done(k', action), [])
  }

  /** Where the loop is after these answers. */
  function Loop(c: Settings, answers: seq<Answer>): Progress {
    if answers == [] then Running(START, 0)
    else Turn(c, Loop(c, answers[..|answers| - 1]), answers[|answers| - 1]).0
  }

  function Effects(c: Settings, answers: seq<Answer>): seq<Effect> {
    if answers == [] then []
    else
      Effects(c, answers[..|answers| - 1]) + Turn(c, Loop(c, answers[..|answers| - 1]), answers[|answers| - 1]).1
  }

  lemma OneMoreAnswer(c: Settings, answers: seq<Answer>, n: nat)
    requires n < |answers|
    ensures Loop(c, answers[..n + 1]) == Turn(c, Loop(c, answers[..n]), answers[n]).0
    ensures Effects(c, answers[..n + 1]) == Effects(c, answers[..n]) + Turn(c, Loop(c, answers[..n]), answers[n]).1
  {
    assert answers[..n + 1][..n] == answers[..n];
  }

  // ---- what ends it ----

  /** The last n answers are errors, and the one before them, if any, is none. */
  ghost predicate ErrorsAtEnd(answers: seq<Answer>, n: nat) {
    && n <= |answers| && (forall i :: |answers| - n <= i < |answers| ==> answers[i].Errored?)
    && (n < |answers| ==> answers[|answers| - n - 1].Answered?)
  }

  lemma {:induction false} ErrorsAreCounted(c: Settings, answers: seq<Answer>)
    ensures var p := Loop(c, answers); p.Running? ==> p.errors < 5 && ErrorsAtEnd(answers, p.errors)
  {
    if answers != [] { ErrorsAreCounted(c, answers[..|answers| - 1]); }
  }

  ghost predicate IsTimeout(answer: Answer, status: WaitStatus) {
    answer.Answered? && answer.response.Timeout? && answer.response.status == status
  }

  /** How the poll ends is said by the last answer: it delivers on a message and on nothing else, hands back on a status
      that needs its agent and on nothing else, fails on the fifth error in a row and on nothing else, and gives up only
      on the status it was waiting through. */
  ghost predicate EndsOn(p: Progress, answers: seq<Answer>)
    requires answers != []
  {
    var last := answers[|answers| - 1];
    && ((p.Done? && p.action.Deliver?) <==> last == Answered(Message))
    && ((p.Done? && p.action.ExitStatus?)
        <==> last.Answered? && last.response.Timeout? && NeedsItsAgent(last.response.status))
    && (p.Failed? <==> |answers| >= 5 && forall i :: |answers| - 5 <= i < |answers| ==> answers[i].Errored?)
    && (p.Done? ==> !p.action.Wait?)
    && (p.Done? && p.action.GiveUpEmpty? ==> IsTimeout(last, PausedByTimeout))
    && (p.Done? && p.action.GiveUpJoin? ==> IsTimeout(last, AwaitingCounterpart))
    && (p.Done? && p.action.GiveUpStale? ==> IsTimeout(last, CounterpartStale))
  }

  lemma EndsAsAnswered(c: Settings, answers: seq<Answer>)
    requires answers != [] && Loop(c, answers[..|answers| - 1]).Running?
    ensures EndsOn(Loop(c, answers), answers)
  {
    var shorter := answers[..|answers| - 1];
    ErrorsAreCounted(c, shorter);
    var errors := Loop(c, shorter).errors;
    if answers[|answers| - 1].Errored? && errors < 4 {
      assert errors < |shorter| ==> answers[|answers| - errors - 2].Answered?;
    }
    hide Loop;
  }

  /** The loop itself, on as many answers as there are. `used` of them it has taken. */
  method PollUntilEvent(settings: Settings, answers: seq<Answer>)
    returns (outcome: Progress, effects: seq<Effect>, used: nat)
    ensures used <= |answers|
    ensures outcome == Loop(Floored(settings), answers[..used])
        && effects == Effects(Floored(settings), answers[..used])
    ensures outcome.Running? ==> used == |answers|
    ensures forall n :: 0 <= n < used ==> Loop(Floored(settings), answers[..n]).Running?
    ensures used > 0 ==> EndsOn(outcome, answers[..used])
    ensures used == 0 ==> outcome.Running?
  {
    hide EndsOn, Decision;
    var consecutiveErrors := 0;
    var st := new PollState(settings);
    var c := st.settings;
    effects, used := [], 0;
    while used < |answers|
      invariant used <= |answers| && st.settings == c == Floored(settings)
      invariant Loop(c, answers[..used]) == Running(st.Snapshot(), consecutiveErrors)
      invariant effects == Effects(c, answers[..used])
      invariant forall n :: 0 <= n < used ==> Loop(c, answers[..n]).Running?
      invariant used > 0 ==> EndsOn(Loop(c, answers[..used]), answers[..used])
    {
      OneMoreAnswer(c, answers, used);
      assert answers[..used + 1][..used] == answers[..used];
      EndsAsAnswered(c, answers[..used + 1]);
      var answer := answers[used];
      used := used + 1;
      if answer.Errored? {
        consecutiveErrors := consecutiveErrors + 1;
        if consecutiveErrors >= MAX_CONSECUTIVE_ERRORS {
          return Failed, effects, used;
        }
        effects := effects + [Sleep(c.errorBackoff)];
      } else {
        consecutiveErrors := 0;
        var action := st.PollDecision(answer.response);
        if !action.Wait? {
          outcome := Done(st.Snapshot(), action);
          return;
        }
        if action.announceStale {
          effects := effects + [HeadsUp];
        }
        effects := effects + [Sleep(action.secs)];
      }
    }
    outcome := Running(st.Snapshot(), consecutiveErrors);
  }

  // ---- termination against any server ----

  predicate Bounded(c: Settings) {
    c.maxPolls != 0 && c.maxJoinWait != 0 && c.maxStaleWait != 0
  }

  function Left(bound: nat, spent: nat): nat {
    if spent < bound then bound - spent else 0
  }

  /** How many more times the loop can be told to wait: an empty poll hands out a new stale budget but costs one of the
      polls, a join wait and a stale wait each cost a second at least. */
  function Budget(c: Settings, k: Counters): nat {
    Left(c.maxPolls, k.emptyPolls) * (c.maxStaleWait + 1) + Left(c.maxStaleWait, k.staleWait)
        + Left(c.maxJoinWait, k.joinWait)
  }

  lemma BudgetFalls(c: Settings, k: Counters, response: Response)
    requires Bounded(c)
    ensures var (k', action) := Decision(c, k, response); action.Wait? ==> Budget(c, k') < Budget(c, k)
  {
    var (k', action) := Decision(c, k, response);
    if action.Wait? && response.status.PausedByTimeout? {
      var polls := Left(c.maxPolls, k.emptyPolls);
      assert Left(c.maxPolls, k'.emptyPolls) == polls - 1;
      assert (polls - 1) * (c.maxStaleWait + 1) == polls * (c.maxStaleWait + 1) - (c.maxStaleWait + 1);
    }
  }

  /** Each answer costs one of the budget, or is one of fewer than five errors in a row. */
  lemma {:induction false} AnswersAreSpent(c: Settings, answers: seq<Answer>)
    requires Bounded(c)
    ensures var p := Loop(c, answers);
      p.Running? ==>
        && p.errors < MAX_CONSECUTIVE_ERRORS
        && |answers| + MAX_CONSECUTIVE_ERRORS * Budget(c, p.k) <= MAX_CONSECUTIVE_ERRORS * Budget(c, START) + p.errors
  {
    if answers != [] {
      var shorter, answer := answers[..|answers| - 1], answers[|answers| - 1];
      AnswersAreSpent(c, shorter);
      var p := Loop(c, shorter);
      if p.Running? && answer.Answered? { BudgetFalls(c, p.k, answer.response); }
      hide Budget, Decision, Bounded;
    }
  }

  ghost predicate EndsWithin(c: Settings, n: nat) {
    forall answers: seq<Answer> :: |answers| >= n ==> !Loop(c, answers).Running?
  }

  /** With all three bounds in force the poll ends on every stream of answers and errors, after a known number of
      them. */
  lemma BoundedEnds(c: Settings)
    requires Bounded(c)
    ensures EndsWithin(c, MAX_CONSECUTIVE_ERRORS * (Budget(c, START) + 1))
  {
    forall answers: seq<Answer> | |answers| >= MAX_CONSECUTIVE_ERRORS * (Budget(c, START) + 1)
      ensures !Loop(c, answers).Running?
    {
      AnswersAreSpent(c, answers);
      hide Budget, Loop;
    }
  }

  /** The status a bound of zero lets a server repeat for ever. */
  function Lulling(c: Settings): Answer {
    Answered(Timeout(if c.maxPolls == 0 then PausedByTimeout
                     else if c.maxJoinWait == 0 then AwaitingCounterpart
                     else CounterpartStale, None))
  }

  lemma {:induction false} LulledForever(c: Settings, n: nat)
    requires !Bounded(c)
    ensures Loop(c, seq(n, i => Lulling(c))).Running?
  {
    if n > 0 {
      LulledForever(c, n - 1);
      assert seq(n, i => Lulling(c))[..n - 1] == seq(n - 1, i => Lulling(c));
    }
  }

  /** It ends on every stream exactly when none of the three bounds is switched off. */
  lemma EndsIffBounded(c: Settings)
    ensures (exists n :: EndsWithin(c, n)) <==> Bounded(c)
  {
    if Bounded(c) {
      BoundedEnds(c);
    } else {
      forall n ensures !EndsWithin(c, n) {
        if n >= 0 { LulledForever(c, n); }
      }
    }
  }

  /** As the command line sets it up: the join wait is always bounded, so only the other two decide. */
  lemma EndsAsInvoked(c: Settings, joinWait: nat)
    requires c.maxJoinWait == EffectiveMaxJoinWait(joinWait)
    ensures (exists n :: EndsWithin(Floored(c), n)) <==> c.maxPolls != 0 && c.maxStaleWait != 0
  {
    EndsIffBounded(Floored(c));
  }

  // ---- how long it sleeps ----

  /** The sleep the n-th answer causes while the loop runs, or 0. */
  function SleepAt(c: Settings, answers: seq<Answer>, n: nat, status: WaitStatus): nat
    requires n < |answers|
  {
    var p := Loop(c, answers[..n]);
    if p.Running? && answers[n].Answered? && answers[n].response.Timeout? && answers[n].response.status == status
    then
      var action := Decision(c, p.k, answers[n].response).1;
      if action.Wait? then action.secs else 0
    else 0
  }

  function JoinSlept(c: Settings, answers: seq<Answer>, n: nat): nat
    requires n <= |answers|
  {
    if n == 0 then 0 else JoinSlept(c, answers, n - 1) + SleepAt(c, answers, n - 1, AwaitingCounterpart)
  }

  predicate IsStatus(answers: seq<Answer>, n: nat, status: WaitStatus)
  {
    n < |answers| && answers[n].Answered? && answers[n].response.Timeout? && answers[n].response.status == status
  }

  /** The sleep of the stale spell the n-th answer belongs to: since the last plain timeout. */
  function SpellSlept(c: Settings, answers: seq<Answer>, n: nat): nat
    requires n <= |answers|
  {
    if n == 0 || IsStatus(answers, n - 1, PausedByTimeout) then 0
    else SpellSlept(c, answers, n - 1) + SleepAt(c, answers, n - 1, CounterpartStale)
  }

  /** A stale answer since the last plain timeout. */
  ghost predicate InSpell(answers: seq<Answer>, j: nat, n: nat) {
    j < n && IsStatus(answers, j, CounterpartStale) && forall i :: j < i < n ==> !IsStatus(answers, i, PausedByTimeout)
  }

  ghost predicate SpellOpen(answers: seq<Answer>, n: nat) {
    exists j :: InSpell(answers, j, n)
  }

  function EmptyPolls(answers: seq<Answer>, n: nat): nat {
    if n == 0 then 0 else EmptyPolls(answers, n - 1) + if IsStatus(answers, n - 1, PausedByTimeout) then 1 else 0
  }

  ghost predicate Counted(c: Settings, answers: seq<Answer>, n: nat)
    requires n <= |answers|
  {
    var p := Loop(c, answers[..n]);
    p.Running? ==>
      && p.k.emptyPolls == EmptyPolls(answers, n) && (c.maxPolls != 0 ==> p.k.emptyPolls < c.maxPolls)
      && p.k.joinWait == JoinSlept(c, answers, n)
      && p.k.staleWait == SpellSlept(c, answers, n)
      && (p.k.staleAnnounced <==> SpellOpen(answers, n))
      && (c.maxJoinWait != 0 ==> p.k.joinWait < c.maxJoinWait + Max(c.joinBackoff, QUIET_BACKOFF_CAP_SECS))
      && (c.maxStaleWait != 0 ==> p.k.staleWait < c.maxStaleWait + Max(c.staleBackoff, QUIET_BACKOFF_CAP_SECS))
  }

  lemma SpellGoesOn(answers: seq<Answer>, n: nat, next: nat)
    requires n < |answers| && next == n + 1
    ensures SpellOpen(answers, next)
            <==> IsStatus(answers, n, CounterpartStale)
                 || (!IsStatus(answers, n, PausedByTimeout) && SpellOpen(answers, n))
  {
    if IsStatus(answers, n, CounterpartStale) { assert InSpell(answers, n, next); }
    if j :| InSpell(answers, j, n) {
      if !IsStatus(answers, n, PausedByTimeout) { assert InSpell(answers, j, next); }
    }
    if j :| InSpell(answers, j, next) {
      if j != n { assert InSpell(answers, j, n); }
    }
  }

  lemma {:induction false} CountersAreTrue(c: Settings, answers: seq<Answer>, n: nat)
    requires n <= |answers|
    ensures Counted(c, answers, n)
  {
    hide Turn, SpellOpen;
    if n > 0 {
      CountersAreTrue(c, answers, n - 1);
      OneMoreAnswer(c, answers, n - 1);
      SpellGoesOn(answers, n - 1, n);
      CountersGoOn(c, answers, n - 1);
    } else {
      NothingCounted(c, answers);
    }
  }

  lemma NothingCounted(c: Settings, answers: seq<Answer>)
    ensures Counted(c, answers, 0)
  {
    assert answers[..0] == [];
  }

  lemma CountersGoOn(c: Settings, answers: seq<Answer>, n: nat)
    requires n < |answers| && Counted(c, answers, n)
    requires Loop(c, answers[..n + 1]) == Turn(c, Loop(c, answers[..n]), answers[n]).0
    requires SpellOpen(answers, n + 1)
      <==> IsStatus(answers, n, CounterpartStale)
           || (!IsStatus(answers, n, PausedByTimeout) && SpellOpen(answers, n))
    ensures Counted(c, answers, n + 1)
  {
    hide SpellOpen, Loop, Effects;
  }

  /** After an empty answer as long as the server says, but a second at least; in a hold by its own pace in the first
      half hour and no faster than once a minute afterwards. */
  ghost predicate SleepsRight(c: Settings, answers: seq<Answer>, n: nat, secs: nat)
    requires n < |answers| && answers[n].Answered? && answers[n].response.Timeout?
  {
    match answers[n].response.status
    case PausedByTimeout =>
      (match answers[n].response.retryAfter
       case Some(hint) => secs == if hint == 0 then 1 else hint
       case None => secs == 1)
    case AwaitingCounterpart => KeepsPace(c.joinBackoff, JoinSlept(c, answers, n), secs)
    case CounterpartStale => KeepsPace(c.staleBackoff, SpellSlept(c, answers, n), secs)
    case _ => false
  }

  ghost predicate KeepsPace(base: nat, slept: nat, secs: nat) {
    if slept < 30 * 60 then secs == if base == 0 then 1 else base
    else secs >= 60 && secs >= base && (secs == 60 || secs == base)
  }

  /** A hold that gives up has slept, in that hold, at least its window, and less than the window plus one escalated
      nap; a poll that gives up empty has come back empty as often as it was told to; every sleep lasts a second at
      least; and the heads-up comes with the first stale answer of each spell and with no other. */
  lemma HoldsGiveUpInTime(c: Settings, answers: seq<Answer>, n: nat)
    requires n < |answers| && Loop(c, answers[..n]).Running? && answers[n].Answered?
    ensures
      match Decision(c, Loop(c, answers[..n]).k, answers[n].response).1
      case GiveUpJoin =>
        c.maxJoinWait <= JoinSlept(c, answers, n) < c.maxJoinWait + Max(c.joinBackoff, QUIET_BACKOFF_CAP_SECS)
      case GiveUpStale =>
        c.maxStaleWait <= SpellSlept(c, answers, n) < c.maxStaleWait + Max(c.staleBackoff, QUIET_BACKOFF_CAP_SECS)
      case GiveUpEmpty => EmptyPolls(answers, n) + 1 == c.maxPolls
      case Wait(secs, announce) =>
        && secs >= 1
        && (announce <==> IsStatus(answers, n, CounterpartStale) && !SpellOpen(answers, n))
      case _ => true
  {
    CountersAreTrue(c, answers, n);
  }

  /** And the effects of an answer the loop goes on after are that one sleep, behind the heads-up if one is due. */
  lemma SleepsAreRight(c: Settings, answers: seq<Answer>, n: nat)
    requires n < |answers| && Loop(c, answers[..n]).Running? && Loop(c, answers[..n + 1]).Running?
    ensures
      var effects := Turn(c, Loop(c, answers[..n]), answers[n]).1;
      && effects != [] && effects[|effects| - 1].Sleep?
      && var secs := effects[|effects| - 1].secs;
         if answers[n].Errored? then effects == [Sleep(c.errorBackoff)]
         else
           && answers[n].response.Timeout? && SleepsRight(c, answers, n, secs)
           && effects == if IsStatus(answers, n, CounterpartStale) && !SpellOpen(answers, n) then [HeadsUp, Sleep(secs)]
                         else [Sleep(secs)]
  {
    CountersAreTrue(c, answers, n);
    OneMoreAnswer(c, answers, n);
    hide Loop, SpellOpen, JoinSlept, SpellSlept, EmptyPolls;
  }
}
