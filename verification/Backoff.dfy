/** How long to back off behind a counterpart that is consulting its user: a flat base for five minutes, then half as
    much again per full minute, rounded, at most a minute. */
module Backoff {
  import opened Tables

  const CEILING: nat := 60

  function Base(severity: Severity): nat {
    match severity
    case Low => 10
    case Med => 20
    case High => 45
  }

  function Pow(b: nat, n: nat): nat {
    if n == 0 then 1 else b * Pow(b, n - 1)
  }

  /** p / q rounded to the nearest whole number, halves up. */
  function RoundHalfUp(p: nat, q: nat): nat
    requires q > 0
  {
    (2 * p + q) / (2 * q)
  }

  /** The cast of a minute count to 32 bits wraps around. */
  function Wrap32(n: int): int {
    (n + 0x8000_0000) % 0x1_0000_0000 - 0x8000_0000
  }

  function Minutes(elapsed: int): nat {
    (if elapsed > 300 then elapsed - 300 else 0) / 60
  }

  /** base * 1.5^n, rounded and capped; for a negative exponent the power is that of two thirds. */
  function Decayed(base: nat, n: int): nat {
    var raw :=
      if n >= 0 then (PowPositive(2, n); RoundHalfUp(base * Pow(3, n), Pow(2, n)))
      else (PowPositive(3, -n); RoundHalfUp(base * Pow(2, -n), Pow(3, -n)));
    if raw < CEILING then raw else CEILING
  }

  function BackoffSecs(severity: Severity, elapsed: int): nat {
    Decayed(Base(severity), Wrap32(Minutes(elapsed)))
  }

  lemma {:induction false} PowPositive(b: nat, n: nat)
    requires b > 0
    ensures Pow(b, n) > 0
  {
    if n > 0 { PowPositive(b, n - 1); }
  }

  lemma Scale(a: int, b: int, c: nat)
    requires a <= b
    ensures a * c <= b * c
  {
  }

  lemma Cancel(a: int, b: int, c: nat)
    requires c > 0
    ensures a * c <= b * c ==> a <= b
    ensures a * c < b * c ==> a < b
  {
    if a > b {
      Scale(b + 1, a, c);
      assert (b + 1) * c == b * c + c;
    }
  }

  lemma Rounds(p: nat, q: nat)
    requires q > 0
    ensures var r := RoundHalfUp(p, q); r * (2 * q) <= 2 * p + q < (r + 1) * (2 * q)
  {
  }

  /** A whole number no higher than one fraction's rounding is no higher than a larger fraction's. */
  lemma Below(r: nat, p: nat, q: nat, p': nat, q': nat)
    requires q > 0 && p * q' <= p' * q && r * (2 * q) <= 2 * p + q
    ensures (r * (2 * q')) * q <= (2 * p' + q') * q
  {
    Scale(r * (2 * q), 2 * p + q, q');
    assert (r * (2 * q')) * q == (r * (2 * q)) * q';
    assert (2 * p + q) * q' == 2 * (p * q') + q * q';
    assert (2 * p' + q') * q == 2 * (p' * q) + q * q';
  }

  /** Rounding respects the order of fractions. */
  lemma RoundMonotone(p: nat, q: nat, p': nat, q': nat)
    requires q > 0 && q' > 0 && p * q' <= p' * q
    ensures RoundHalfUp(p, q) <= RoundHalfUp(p', q')
  {
    var r, r' := RoundHalfUp(p, q), RoundHalfUp(p', q');
    Rounds(p, q);
    Rounds(p', q');
    Below(r, p, q, p', q');
    hide RoundHalfUp;
    Cancel(r * (2 * q'), 2 * p' + q', q);
    Cancel(r, r' + 1, 2 * q');
  }

  /** One more minute never shortens the wait. */
  lemma OneMinuteMore(base: nat, n: nat)
    ensures Decayed(base, n) <= Decayed(base, n + 1)
  {
    PowPositive(2, n);
    var p, q := base * Pow(3, n), Pow(2, n);
    assert base * Pow(3, n + 1) == 3 * p && Pow(2, n + 1) == 2 * q;
    assert p * (2 * q) <= (3 * p) * q;
    RoundMonotone(p, q, 3 * p, 2 * q);
  }

  lemma {:induction false} DecayedGrows(base: nat, m: nat, n: nat)
    requires m <= n
    ensures Decayed(base, m) <= Decayed(base, n)
  {
    if m < n {
      DecayedGrows(base, m, n - 1);
      OneMinuteMore(base, n - 1);
    }
  }

  /** One more minute below zero never lengthens it. */
  lemma OneMinuteLess(base: nat, k: int)
    requires k >= 0
    ensures Decayed(base, -(k + 1)) <= Decayed(base, -k)
  {
    PowPositive(2, k);
    PowPositive(3, k);
    var p, q := base * Pow(2, k), Pow(3, k);
    assert base * Pow(2, k + 1) == 2 * p && Pow(3, k + 1) == 3 * q;
    assert (2 * p) * q <= p * (3 * q);
    RoundMonotone(2 * p, 3 * q, p, q);
    assert Decayed(base, -0) == Decayed(base, 0);
  }

  lemma {:induction false} DecayedShrinks(base: nat, k: int)
    requires k >= 1
    ensures Decayed(base, -k) <= Decayed(base, -1)
  {
    if k > 1 {
      DecayedShrinks(base, k - 1);
      OneMinuteLess(base, k - 1);
    }
  }

  /** Where the wrap-around leaves the count alone, and where it makes it negative. */
  predicate Counts(elapsed: int) {
    Wrap32(Minutes(elapsed)) >= 0
  }

  /** The hint lies between the base of its severity and a minute exactly as long as the minute count has not wrapped to
      a negative number. */
  lemma WithinBounds(severity: Severity, elapsed: int)
    ensures Base(severity) <= BackoffSecs(severity, elapsed) <= CEILING <==> Counts(elapsed)
    ensures Minutes(elapsed) < 0x8000_0000 ==> Counts(elapsed) && Wrap32(Minutes(elapsed)) == Minutes(elapsed)
  {
    var base, n := Base(severity), Wrap32(Minutes(elapsed));
    if n >= 0 {
      DecayedGrows(base, 0, n);
      assert Decayed(base, 0) == base;
    } else {
      DecayedShrinks(base, -n);
      assert Pow(2, 1) == 2 && Pow(3, 1) == 3;
      assert Decayed(base, -1) < base;
    }
  }

  lemma NoWrap(severity: Severity, elapsed: int)
    requires Minutes(elapsed) < 0x8000_0000
    ensures BackoffSecs(severity, elapsed) == Decayed(Base(severity), Minutes(elapsed))
  {
    assert Wrap32(Minutes(elapsed)) == Minutes(elapsed);
    hide Decayed;
  }

  /** Within the first 2^31 minutes a longer silence never means a shorter wait. */
  lemma LongerMeansNoShorter(severity: Severity, elapsed: int, later: int)
    requires elapsed <= later && Minutes(later) < 0x8000_0000
    ensures BackoffSecs(severity, elapsed) <= BackoffSecs(severity, later)
  {
    assert Minutes(elapsed) <= Minutes(later);
    NoWrap(severity, elapsed);
    NoWrap(severity, later);
    DecayedGrows(Base(severity), Minutes(elapsed), Minutes(later));
    hide *;
  }

  lemma FirstSteps()
    ensures Decayed(10, 0) == 10 && Decayed(10, 1) == 15 && Decayed(10, 2) == 23 && Decayed(10, 3) == 34
    ensures Decayed(10, 4) == 51 && Decayed(10, 5) == CEILING
    ensures Decayed(20, 0) == 20 && Decayed(20, 1) == 30 && Decayed(20, 2) == 45 && Decayed(20, 3) == CEILING
    ensures Decayed(45, 0) == 45 && Decayed(45, 1) == CEILING
  {
    assert Pow(3, 1) == 3 && Pow(3, 2) == 9 && Pow(3, 3) == 27 && Pow(3, 4) == 81 && Pow(3, 5) == 243;
    assert Pow(2, 1) == 2 && Pow(2, 2) == 4 && Pow(2, 3) == 8 && Pow(2, 4) == 16 && Pow(2, 5) == 32;
  }

  /** After how many minutes each severity reaches the ceiling. */
  function StepsToCeiling(severity: Severity): nat {
    match severity
    case Low => 5
    case Med => 3
    case High => 1
  }

  /** The ceiling is reached exactly that many minutes past the first five. */
  lemma ReachesCeiling(severity: Severity, elapsed: int)
    requires Minutes(elapsed) < 0x8000_0000
    ensures BackoffSecs(severity, elapsed) == CEILING <==> elapsed >= 300 + 60 * StepsToCeiling(severity)
  {
    var n, steps := Minutes(elapsed), StepsToCeiling(severity);
    assert n >= steps <==> elapsed >= 300 + 60 * steps;
    FirstSteps();
    NoWrap(severity, elapsed);
    hide Decayed, BackoffSecs, Minutes, Pow;
    if n >= steps {
      DecayedGrows(Base(severity), steps, n);
      AtMostCeiling(Base(severity), n);
    } else {
      DecayedGrows(Base(severity), n, steps - 1);
    }
  }

  lemma AtMostCeiling(base: nat, n: int)
    ensures Decayed(base, n) <= CEILING
  {
  }

  lemma {:induction false} ThirdsOutgrow(k: nat)
    requires k >= 12
    ensures 90 * Pow(2, k) < Pow(3, k)
  {
    if k == 12 {
      assert Pow(2, 6) == 64 && Pow(3, 6) == 729;
      assert Pow(2, 12) == 4096 && Pow(3, 12) == 531441;
    } else {
      ThirdsOutgrow(k - 1);
    }
  }

  /** Past 2^31 minutes it is not so: at the first wrapped count the hint drops from a minute to nothing. */
  lemma WrapDropsToZero(severity: Severity)
    ensures BackoffSecs(severity, 300 + 60 * 0x8000_0000 - 60) == CEILING
    ensures BackoffSecs(severity, 300 + 60 * 0x8000_0000) == 0
  {
    ReachesCeiling(severity, 300 + 60 * 0x8000_0000 - 60);
    FirstWrap();
    VanishesBelow(Base(severity), 0x8000_0000);
    hide Decayed, Minutes, Wrap32;
  }

  lemma FirstWrap()
    ensures Minutes(300 + 60 * 0x8000_0000) == 0x8000_0000 && Wrap32(0x8000_0000) == 0 - 0x8000_0000
  {
  }

  lemma VanishesBelow(base: nat, k: nat)
    requires k >= 12 && base <= 45
    ensures Decayed(base, 0 - k) == 0
  {
    ThirdsOutgrow(k);
    PowPositive(3, k);
    Scale(base, 45, Pow(2, k));
    RoundsToNothing(base * Pow(2, k), Pow(3, k));
    hide Pow, RoundHalfUp;
  }

  lemma RoundsToNothing(p: nat, q: nat)
    requires 2 * p < q
    ensures RoundHalfUp(p, q) == 0
  {
  }
}
