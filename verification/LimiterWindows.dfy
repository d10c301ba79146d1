/** How many attempts a window of time lets through, and exactly when the bound by the window's length holds. */
module LimiterWindows {
  import opened Text
  import opened Clock
  import opened Limiter
  import opened LimiterRuns

  /** How far the clock moves forwards from the first of the attempts to the last. */
  function Movement(ys: seq<Attempt>): nat { if ys == [] then 0 else Forward(ys[0].now, ys) }

  /** `ys` is a stretch of a run of a new limiter, `xs` what came before it; its readings lie in [from, to] and
      move forwards by at most `forward`. */
  ghost predicate Window(c: Config, xs: seq<Attempt>, ys: seq<Attempt>, from: int, to: int, forward: nat) {
    && Run(c, NEW, xs + ys)
    && (forall y | y in ys :: from <= y.now <= to)
    && Movement(ys) <= forward
  }

  /** The attempts allowed one key are at most what a window of this length allows it: burst * (1 + its evictions) plus
      one for every whole refill period in [from, to]. */
  ghost predicate Bounded(c: Config, xs: seq<Attempt>, ys: seq<Attempt>, from: int, to: int, key: string)
    requires c.Valid() && from <= to
  {
    AllowedCount(c, After(c, NEW, xs), ys, key) <= Allowance(c, EvictionCount(ys, key), to - from)
  }

  ghost predicate AlwaysBounded(c: Config, from: int, to: int, forward: nat)
    requires c.Valid() && from <= to
  {
    forall xs, ys, key | Window(c, xs, ys, from, to, forward) :: Bounded(c, xs, ys, from, to, key)
  }

  // ----- when it holds -----

  lemma {:induction false} PeriodsGrow(d: int, less: nat, more: nat)
    requires d > 0 && less <= more
    ensures Periods(d, less) <= Periods(d, more)
    decreases more
  {
    if less >= d { PeriodsGrow(d, less - d, more - d); }
  }

  lemma {:induction false} StillClock(clock: int, xs: seq<Attempt>)
    requires forall x | x in xs :: x.now == clock
    ensures Forward(clock, xs) == 0
    decreases |xs|
  {
    if xs != [] {
      assert xs[0] in xs && forall x | x in xs[1..] :: x in xs;
      StillClock(xs[0].now, xs[1..]);
    }
  }

  lemma WindowIsBounded(c: Config, xs: seq<Attempt>, ys: seq<Attempt>, from: int, to: int, forward: nat, key: string)
    requires c.Valid() && from <= to && Window(c, xs, ys, from, to, forward)
    requires from == to || Periods(c.refill, forward) <= Periods(c.refill, to - from)
    ensures Bounded(c, xs, ys, from, to, key)
  {
    var s := After(c, NEW, xs);
    var first := if ys == [] then from else ys[0].now;
    RunSplits(c, NEW, 0, xs, ys);
    RunStaysValid(c, NEW, xs);
    AnyClockBound(c, s, first, ys, key);
    if from == to {
      if ys != [] { assert ys[0] in ys; }
      StillClock(first, ys);
    } else {
      PeriodsGrow(c.refill, Forward(first, ys), forward);
    }
  }

  // ----- when it does not -----

  /** `n` attempts at one reading. */
  function Copies(key: string, now: int, n: nat): (xs: seq<Attempt>)
    ensures |xs| == n && forall x | x in xs :: x == Attempt(key, now, None)
  {
    if n == 0 then [] else [Attempt(key, now, None)] + Copies(key, now, n - 1)
  }

  /** `n` times a step forwards and the step back. */
  function Zigzag(key: string, now: int, n: nat): (xs: seq<Attempt>)
    ensures forall x | x in xs :: now <= x.now <= now + 1
  {
    if n == 0 then []
    else [Attempt(key, now + 1, None)] + ([Attempt(key, now, None)] + Zigzag(key, now, n - 1))
  }

  /** The limiter tracks `key`, last seen at `now` with this credit. */
  predicate Holds(s: State, key: string, credit: int, now: int) {
    key in s.buckets && s.buckets[key] == Bucket(credit, now)
  }

  lemma FirstAttempt(c: Config, s: State, clock: int, x: Attempt, xs: seq<Attempt>, key: string)
    requires x.victim.None? && x.key == key && CanStep(c, s, x)
    ensures Run(c, s, [x] + xs) <==> Run(c, Step(c, s, x), xs)
    ensures AllowedCount(c, s, [x] + xs, key)
            == (if Decide(c, s, key, x.now).Allowed? then 1 else 0) + AllowedCount(c, Step(c, s, x), xs, key)
    ensures Forward(clock, [x] + xs) == Rise(clock, x.now) + Forward(x.now, xs)
    ensures EvictionCount([x] + xs, key) == EvictionCount(xs, key)
  {
    assert ([x] + xs)[1..] == xs;
  }

  lemma TrackedStep(c: Config, s: State, key: string, credit: int, seen: int, now: int)
    requires c.Valid() && Holds(s, key, credit, seen) && 0 <= credit <= c.Full()
    ensures CanStep(c, s, Attempt(key, now, None))
    ensures var b := Refilled(c, Bucket(credit, seen), now);
            && (Decide(c, s, key, now).Allowed? <==> b >= c.refill)
            && Step(c, s, Attempt(key, now, None))
               == State(s.buckets[key := Bucket(if b < c.refill then b else b - c.refill, now)], s.lastSweep)
  {
  }

  /** One step forwards and the step back. */
  lemma ZigzagPair(c: Config, s: State, key: string, credit: int, now: int, rest: seq<Attempt>)
      returns (left: int, t: State)
    requires c.Valid() && Holds(s, key, credit, now) && 0 <= credit < c.refill
    ensures left == (if credit + 1 < c.refill then credit + 1 else 0) && Holds(t, key, left, now)
    ensures var xs := [Attempt(key, now + 1, None)] + ([Attempt(key, now, None)] + rest);
            && (Run(c, t, rest) ==> Run(c, s, xs))
            && EvictionCount(xs, key) == EvictionCount(rest, key)
            && Forward(now, xs) == 1 + Forward(now, rest)
            && AllowedCount(c, s, xs, key)
               == (if credit + 1 == c.refill then 1 else 0) + AllowedCount(c, t, rest, key)
  {
    var up, down := Attempt(key, now + 1, None), Attempt(key, now, None);
    left := if credit + 1 < c.refill then credit + 1 else 0;
    var mid := Step(c, s, up);
    TrackedStep(c, s, key, credit, now, now + 1);
    TrackedStep(c, mid, key, left, now + 1, now);
    FirstAttempt(c, s, now, up, [down] + rest, key);
    FirstAttempt(c, mid, now + 1, down, rest, key);
    t := Step(c, mid, down);
  }

  /** From less than one token, stepping the clock back and forth earns a token for every refill period it moves
      forwards, although it never leaves [now, now + 1]. */
  lemma {:induction false} ZigzagEarns(c: Config, s: State, key: string, credit: int, now: int, n: nat)
    requires c.Valid() && Holds(s, key, credit, now) && 0 <= credit < c.refill
    ensures var xs := Zigzag(key, now, n);
            && Run(c, s, xs) && EvictionCount(xs, key) == 0 && Forward(now, xs) == n
            && AllowedCount(c, s, xs, key) == Periods(c.refill, credit + n)
    decreases n
  {
    if n > 0 {
      var left, t := ZigzagPair(c, s, key, credit, now, Zigzag(key, now, n - 1));
      ZigzagEarns(c, t, key, left, now, n - 1);
    }
  }

  /** From `m` tokens, the burst and then the zigzag. */
  lemma {:induction false} BurstThenZigzag(c: Config, s: State, key: string, now: int, m: nat, n: nat)
    requires c.Valid() && m <= c.burst && Holds(s, key, Times(c.refill, m), now)
    ensures var xs := Copies(key, now, m) + Zigzag(key, now, n);
            && Run(c, s, xs) && EvictionCount(xs, key) == 0 && Forward(now, xs) == n
            && AllowedCount(c, s, xs, key) == m + Periods(c.refill, n)
    decreases m
  {
    var xs := Copies(key, now, m) + Zigzag(key, now, n);
    if m == 0 {
      assert xs == Zigzag(key, now, n);
      ZigzagEarns(c, s, key, 0, now, n);
    } else {
      var x := Attempt(key, now, None);
      assert xs == [x] + (Copies(key, now, m - 1) + Zigzag(key, now, n));
      TokensFit(c, m);
      TrackedStep(c, s, key, Times(c.refill, m), now, now);
      BurstThenZigzag(c, Step(c, s, x), key, now, m - 1, n);
      FirstAttempt(c, s, now, x, Copies(key, now, m - 1) + Zigzag(key, now, n), key);
    }
  }

  lemma {:induction false} TimesGrows(x: int, m: nat, n: nat)
    requires x >= 0 && m <= n
    ensures Times(x, m) <= Times(x, n)
    decreases n
  {
    if m < n { TimesGrows(x, m, n - 1); }
  }

  lemma TokensFit(c: Config, m: nat)
    requires c.Valid() && 1 <= m <= c.burst
    ensures c.refill <= Times(c.refill, m) <= c.Full()
    ensures Times(c.refill, m) - c.refill == Times(c.refill, m - 1)
  {
    TimesGrows(c.refill, m, c.burst);
  }

  /** A new limiter lets its first key in without evicting anybody, and the key starts with a full burst. */
  lemma FirstEver(c: Config, key: string, now: int)
    requires c.Valid()
    ensures var x := Attempt(key, now, None);
            && CanStep(c, NEW, x) && Decide(c, NEW, key, now).Allowed?
            && Step(c, NEW, x).buckets == map[key := Bucket(Times(c.refill, c.burst - 1), now)]
            && Step(c, NEW, x).lastSweep == if now - ZERO_TIME < c.Full() then ZERO_TIME else now
  {
    assert Swept(c, map[], now) == map[];
    TokensFit(c, c.burst);
  }

  /** For every burst, refill, cap and window start: a run without evictions that stays in [now, now + 1], moves
      forwards by `n`, and is allowed a whole burst plus a token for every refill period in `n`. */
  lemma BackwardClockEarnsAgain(c: Config, key: string, now: int, n: nat)
    requires c.Valid()
    ensures var ys := Copies(key, now, c.burst) + Zigzag(key, now, n);
            && Run(c, NEW, ys) && EvictionCount(ys, key) == 0 && Movement(ys) == n
            && (forall y | y in ys :: now <= y.now <= now + 1)
            && AllowedCount(c, NEW, ys, key) == c.burst + Periods(c.refill, n)
            && Periods(c.refill, n) == n / c.refill
  {
    var x := Attempt(key, now, None);
    var rest := Copies(key, now, c.burst - 1) + Zigzag(key, now, n);
    var ys := Copies(key, now, c.burst) + Zigzag(key, now, n);
    assert ys == [x] + rest;
    FirstEver(c, key, now);
    BurstThenZigzag(c, Step(c, NEW, x), key, now, c.burst - 1, n);
    FirstAttempt(c, NEW, now, x, rest, key);
    PeriodsIsQuotient(c.refill, n);
  }

  lemma WindowOverflows(c: Config, from: int, to: int, forward: nat)
    requires c.Valid() && from < to && Periods(c.refill, forward) > Periods(c.refill, to - from)
    ensures !AlwaysBounded(c, from, to, forward)
  {
    var ys := Copies("", from, c.burst) + Zigzag("", from, forward);
    BackwardClockEarnsAgain(c, "", from, forward);
    assert [] + ys == ys && After(c, NEW, []) == NEW;
    assert Window(c, [], ys, from, to, forward);
    assert Times(c.burst, 1) == c.burst;
    assert !Bounded(c, [], ys, from, to, "");
  }

  /** The window bound, exactly: every run whose readings in the window lie in [from, to] and move forwards by at
      most `forward` meets it, if and only if the clock cannot move forwards by more whole refill periods than the
      window holds. (In a window of no length the clock cannot move at all.) */
  lemma WindowBoundExactlyWhen(c: Config, from: int, to: int, forward: nat)
    requires c.Valid() && from <= to
    ensures AlwaysBounded(c, from, to, forward) <==> from == to || forward / c.refill <= (to - from) / c.refill
  {
    PeriodsIsQuotient(c.refill, forward);
    PeriodsIsQuotient(c.refill, to - from);
    if from == to || Periods(c.refill, forward) <= Periods(c.refill, to - from) {
      forall xs, ys, key | Window(c, xs, ys, from, to, forward) ensures Bounded(c, xs, ys, from, to, key) {
        WindowIsBounded(c, xs, ys, from, to, forward, key);
      }
    } else {
      WindowOverflows(c, from, to, forward);
    }
  }

  /** In particular it holds of readings that never decrease. */
  lemma WindowBound(c: Config, xs: seq<Attempt>, ys: seq<Attempt>, from: int, to: int, key: string)
    requires c.Valid() && Run(c, NEW, xs + ys)
    requires from <= to && (forall y | y in ys :: from <= y.now <= to)
    requires ys != [] ==> Monotone(ys[0].now, ys)
    ensures AllowedCount(c, After(c, NEW, xs), ys, key)
            <= c.burst * (1 + EvictionCount(ys, key)) + (to - from) / c.refill
  {
    MonotoneMovement(ys, from, to);
    WindowIsBounded(c, xs, ys, from, to, to - from, key);
    AllowanceIs(c, EvictionCount(ys, key), to - from);
  }

  lemma MonotoneMovement(ys: seq<Attempt>, from: int, to: int)
    requires from <= to && (forall y | y in ys :: from <= y.now <= to) && (ys != [] ==> Monotone(ys[0].now, ys))
    ensures Movement(ys) <= to - from
  {
    if ys != [] {
      ForwardOfMonotone(ys[0].now, ys);
      EndIsLast(ys[0].now, ys);
      assert ys[0] in ys && ys[|ys| - 1] in ys;
    }
  }

  lemma {:induction false} EndIsLast(clock: int, xs: seq<Attempt>)
    requires xs != []
    ensures EndTime(clock, xs) == xs[|xs| - 1].now
    decreases |xs|
  {
    if |xs| > 1 { EndIsLast(xs[0].now, xs[1..]); }
  }
}
