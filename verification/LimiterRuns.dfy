/** What the limiter promises over whole runs: any number of attempts by any keys. Clock readings are taken
    before the lock, so in lock order they may fall in any order; where a result needs more, it says so. */
module LimiterRuns {
  import opened Text
  import opened Clock
  import opened Limiter

  /** One call of allow: the clock it read, and the key the cap evicted on its way, if any. */
  datatype Attempt = Attempt(key: string, now: int, victim: Option<string>)

  function Step(c: Config, s: State, a: Attempt): State {
    Next(c, s, a.key, a.now, a.victim)
  }

  ghost predicate CanStep(c: Config, s: State, a: Attempt) {
    Legal(c, s, a.key, a.now, a.victim)
  }

  /** The attempts are a possible run of the limiter from `s`. */
  ghost predicate Run(c: Config, s: State, xs: seq<Attempt>)
    decreases |xs|
  {
    xs == [] || (CanStep(c, s, xs[0]) && Run(c, Step(c, s, xs[0]), xs[1..]))
  }

  function After(c: Config, s: State, xs: seq<Attempt>): State
    decreases |xs|
  {
    if xs == [] then s else After(c, Step(c, s, xs[0]), xs[1..])
  }

  function EndTime(clock: int, xs: seq<Attempt>): int
    decreases |xs|
  {
    if xs == [] then clock else EndTime(xs[0].now, xs[1..])
  }

  function Rise(t: int, u: int): nat { if u > t then u - t else 0 }

  /** How far the clock moved forwards, counting none of its steps back. */
  function Forward(clock: int, xs: seq<Attempt>): nat
    decreases |xs|
  {
    if xs == [] then 0 else Rise(clock, xs[0].now) + Forward(xs[0].now, xs[1..])
  }

  /** The readings never decrease. */
  predicate Monotone(clock: int, xs: seq<Attempt>)
    decreases |xs|
  {
    xs == [] || (clock <= xs[0].now && Monotone(xs[0].now, xs[1..]))
  }

  lemma {:induction false} ForwardOfMonotone(clock: int, xs: seq<Attempt>)
    requires Monotone(clock, xs)
    ensures Forward(clock, xs) == EndTime(clock, xs) - clock
    decreases |xs|
  {
    if xs != [] {
      ForwardOfMonotone(xs[0].now, xs[1..]);
    }
  }

  lemma RunCons(c: Config, s: State, clock: int, x: Attempt, xs: seq<Attempt>)
    ensures Run(c, s, [x] + xs) <==> CanStep(c, s, x) && Run(c, Step(c, s, x), xs)
    ensures After(c, s, [x] + xs) == After(c, Step(c, s, x), xs)
    ensures EndTime(clock, [x] + xs) == EndTime(x.now, xs)
    ensures Forward(clock, [x] + xs) == Rise(clock, x.now) + Forward(x.now, xs)
    ensures Monotone(clock, [x] + xs) <==> clock <= x.now && Monotone(x.now, xs)
  {
    assert ([x] + xs)[1..] == xs;
  }

  lemma {:induction false} RunSplits(c: Config, s: State, clock: int, xs: seq<Attempt>, ys: seq<Attempt>)
    ensures Run(c, s, xs + ys) <==> Run(c, s, xs) && Run(c, After(c, s, xs), ys)
    ensures After(c, s, xs + ys) == After(c, After(c, s, xs), ys)
    ensures Forward(clock, xs + ys) == Forward(clock, xs) + Forward(EndTime(clock, xs), ys)
    ensures EndTime(clock, xs + ys) == EndTime(EndTime(clock, xs), ys)
    ensures Monotone(clock, xs + ys) <==> Monotone(clock, xs) && Monotone(EndTime(clock, xs), ys)
    decreases |xs|
  {
    if xs == [] {
      assert xs + ys == ys;
    } else {
      var x, rest := xs[0], xs[1..];
      assert xs == [x] + rest && xs + ys == [x] + (rest + ys);
      RunCons(c, s, clock, x, rest + ys);
      RunCons(c, s, clock, x, rest);
      RunSplits(c, Step(c, s, x), x.now, rest, ys);
    }
  }

  // ----- one bucket over time -----

  /** Looking at a balance later gains at most the time between, and nothing is lost to time. In particular a
      bucket that is full stays full, so forgetting it loses nothing. */
  lemma BalanceMoves(c: Config, s: State, key: string, t: int, u: int)
    requires Valid(c, s)
    ensures var b, e := Balance(c, s.buckets, key, t), Balance(c, s.buckets, key, u);
            && 0 <= b <= c.Full()
            && e <= b + Rise(t, u)
            && (u >= t ==> e >= b)
  {
  }

  lemma OwnBalance(c: Config, s: State, a: Attempt)
    requires Valid(c, s) && CanStep(c, s, a)
    ensures var b := Balance(c, s.buckets, a.key, a.now);
            Balance(c, Step(c, s, a).buckets, a.key, a.now) == if b < c.refill then b else b - c.refill
  {
  }

  lemma OtherBalance(c: Config, s: State, a: Attempt, k: string)
    requires Valid(c, s) && CanStep(c, s, a) && k != a.key
    ensures Balance(c, Step(c, s, a).buckets, k, a.now)
            == if a.victim == Some(k) then c.Full() else Balance(c, s.buckets, k, a.now)
  {
    BalanceMoves(c, s, k, a.now, a.now);
  }

  /** The whole effect of an attempt on every balance, whatever was swept: the arriving key pays if it can,
      an evicted key is forgiven, and no other balance moves. */
  lemma StepBalances(c: Config, s: State, a: Attempt, k: string)
    requires Valid(c, s) && CanStep(c, s, a)
    ensures Valid(c, Step(c, s, a))
    ensures var b := Balance(c, s.buckets, k, a.now);
            Balance(c, Step(c, s, a).buckets, k, a.now) ==
            if k == a.key then (if b < c.refill then b else b - c.refill)
            else if a.victim == Some(k) then c.Full()
            else b
  {
    AllowStaysValid(c, s, a.key, a.now, a.victim);
    if k == a.key { OwnBalance(c, s, a); } else { OtherBalance(c, s, a, k); }
  }

  lemma {:induction false} RunStaysValid(c: Config, s: State, xs: seq<Attempt>)
    requires Valid(c, s) && Run(c, s, xs)
    ensures Valid(c, After(c, s, xs))
    decreases |xs|
  {
    if xs != [] {
      AllowStaysValid(c, s, xs[0].key, xs[0].now, xs[0].victim);
      RunStaysValid(c, Step(c, s, xs[0]), xs[1..]);
    }
  }

  /** Every state a new limiter can reach respects its bounds: balances in [0, burst], at most `max` keys. */
  lemma EveryRunIsBounded(c: Config, xs: seq<Attempt>)
    requires c.Valid() && Run(c, NEW, xs)
    ensures Valid(c, After(c, NEW, xs))
  {
    RunStaysValid(c, NEW, xs);
  }

  // ----- conservation -----

  function AllowedCount(c: Config, s: State, xs: seq<Attempt>, key: string): nat
    decreases |xs|
  {
    if xs == [] then 0
    else (if xs[0].key == key && Decide(c, s, key, xs[0].now).Allowed? then 1 else 0)
         + AllowedCount(c, Step(c, s, xs[0]), xs[1..], key)
  }

  function EvictionCount(xs: seq<Attempt>, key: string): nat {
    if xs == [] then 0
    else (if xs[0].victim == Some(key) then 1 else 0) + EvictionCount(xs[1..], key)
  }

  lemma {:induction false} TimesIsProduct(x: int, n: nat)
    ensures Times(x, n) == x * n
  {
    if n > 0 {
      TimesIsProduct(x, n - 1);
      assert x * n == x + x * (n - 1);
    }
  }

  lemma CreditStep(c: Config, s: State, clock: int, a: Attempt, key: string)
    requires Valid(c, s) && CanStep(c, s, a)
    ensures Balance(c, Step(c, s, a).buckets, key, a.now)
            + (if a.key == key && Decide(c, s, key, a.now).Allowed? then c.refill else 0)
            <= Balance(c, s.buckets, key, clock) + Rise(clock, a.now)
               + (if a.victim == Some(key) then c.Full() else 0)
  {
    BalanceMoves(c, s, key, clock, a.now);
    StepBalances(c, s, a, key);
  }

  /** What `key` pays over a run. */
  function Spending(c: Config, s: State, xs: seq<Attempt>, key: string): int
    decreases |xs|
  {
    if xs == [] then 0
    else (if xs[0].key == key && Decide(c, s, key, xs[0].now).Allowed? then c.refill else 0)
         + Spending(c, Step(c, s, xs[0]), xs[1..], key)
  }

  /** What `key` can come by: what the clock moves forwards, and a full bucket for each of its evictions. */
  function Income(c: Config, clock: int, xs: seq<Attempt>, key: string): int
    decreases |xs|
  {
    if xs == [] then 0
    else Rise(clock, xs[0].now) + (if xs[0].victim == Some(key) then c.Full() else 0)
         + Income(c, xs[0].now, xs[1..], key)
  }

  /** Credit is conserved: what is left plus what was spent is at most what there was plus what came in. */
  lemma {:induction false} CreditIsConserved(c: Config, s: State, clock: int, xs: seq<Attempt>, key: string)
    requires Valid(c, s) && Run(c, s, xs)
    ensures Balance(c, After(c, s, xs).buckets, key, EndTime(clock, xs)) + Spending(c, s, xs, key)
            <= Balance(c, s.buckets, key, clock) + Income(c, clock, xs, key)
    decreases |xs|
  {
    if xs != [] {
      var a := xs[0];
      CreditStep(c, s, clock, a, key);
      AllowStaysValid(c, s, a.key, a.now, a.victim);
      CreditIsConserved(c, Step(c, s, a), a.now, xs[1..], key);
    }
  }

  lemma SpendingStep(c: Config, s: State, xs: seq<Attempt>, key: string) returns (pays: bool, t: State)
    requires xs != []
    ensures t == Step(c, s, xs[0])
    ensures Spending(c, s, xs, key) == (if pays then c.refill else 0) + Spending(c, t, xs[1..], key)
    ensures AllowedCount(c, s, xs, key) == (if pays then 1 else 0) + AllowedCount(c, t, xs[1..], key)
  {
    pays, t := xs[0].key == key && Decide(c, s, key, xs[0].now).Allowed?, Step(c, s, xs[0]);
  }

  lemma {:induction false} SpendingIsCounted(c: Config, s: State, xs: seq<Attempt>, key: string)
    ensures Spending(c, s, xs, key) == Times(c.refill, AllowedCount(c, s, xs, key))
    decreases |xs|
  {
    if xs != [] {
      var pays, t := SpendingStep(c, s, xs, key);
      SpendingIsCounted(c, t, xs[1..], key);
      TimesOneMore(c.refill, pays, AllowedCount(c, t, xs[1..], key));
    }
  }

  lemma TimesOneMore(x: int, more: bool, n: nat)
    ensures Times(x, (if more then 1 else 0) + n) == (if more then x else 0) + Times(x, n)
  {
  }

  lemma {:induction false} IncomeIsCounted(c: Config, clock: int, xs: seq<Attempt>, key: string)
    ensures Income(c, clock, xs, key) == Forward(clock, xs) + Times(c.Full(), EvictionCount(xs, key))
    decreases |xs|
  {
    if xs != [] { IncomeIsCounted(c, xs[0].now, xs[1..], key); }
  }

  lemma SpentInRun(c: Config, s: State, clock: int, xs: seq<Attempt>, key: string)
      returns (allowed: nat, evictions: nat, forward: nat)
    requires Valid(c, s) && Run(c, s, xs)
    ensures allowed == AllowedCount(c, s, xs, key)
    ensures evictions == EvictionCount(xs, key)
    ensures forward == Forward(clock, xs)
    ensures Times(c.refill, allowed) <= c.Full() + forward + Times(c.Full(), evictions)
  {
    allowed, evictions, forward := AllowedCount(c, s, xs, key), EvictionCount(xs, key), Forward(clock, xs);
    CreditIsConserved(c, s, clock, xs, key);
    SpendingIsCounted(c, s, xs, key);
    IncomeIsCounted(c, clock, xs, key);
    RunStaysValid(c, s, xs);
    BalanceMoves(c, s, key, clock, clock);
    BalanceMoves(c, After(c, s, xs), key, EndTime(clock, xs), EndTime(clock, xs));
  }

  /** How many whole periods there are in a time. */
  function Periods(d: int, x: nat): nat
    requires d > 0
  {
    if x < d then 0 else 1 + Periods(d, x - d)
  }

  lemma {:induction false} PeriodsIsQuotient(d: int, x: nat)
    requires d > 0
    ensures Periods(d, x) == x / d
    decreases x
  {
    if x < d {
      QuotientIs(d, x, 0, x);
    } else {
      PeriodsIsQuotient(d, x - d);
      var q := (x - d) / d;
      QuotientIs(d, x, 1 + q, (x - d) % d);
    }
  }

  lemma QuotientIs(d: int, x: int, q: int, r: int)
    requires d > 0 && 0 <= r < d && x == d * q + r
    ensures x / d == q
  {
    var p := x / d;
    assert d * p <= x < d * p + d;
    assert d * (p + 1) == d * p + d && d * (q + 1) == d * q + d;
    CancelFactor(d, p, q + 1);
    CancelFactor(d, q, p + 1);
  }

  /** A whole burst, one more for every eviction, and one token for every whole refill period. */
  function Allowance(c: Config, evictions: nat, span: nat): int
    requires c.Valid()
  {
    Times(c.burst, 1 + evictions) + Periods(c.refill, span)
  }

  /** In figures. */
  lemma AllowanceIs(c: Config, evictions: nat, span: nat)
    requires c.Valid()
    ensures Allowance(c, evictions, span) == c.burst * (1 + evictions) + span / c.refill
  {
    TimesIsProduct(c.burst, 1 + evictions);
    PeriodsIsQuotient(c.refill, span);
  }

  /** Token conservation under any clock: over any stretch of any run, the attempts allowed one key number at
      most burst * (1 + its evictions) plus one for every whole refill period the clock moved forwards. */
  lemma AnyClockBound(c: Config, s: State, clock: int, xs: seq<Attempt>, key: string)
    requires Valid(c, s) && Run(c, s, xs)
    ensures AllowedCount(c, s, xs, key) <= Allowance(c, EvictionCount(xs, key), Forward(clock, xs))
  {
    var allowed, evictions, forward := SpentInRun(c, s, clock, xs, key);
    TokensWithin(c, allowed, evictions, forward);
  }

  lemma {:induction false} TimesAdds(x: int, m: nat, n: nat)
    ensures Times(x, m + n) == Times(x, m) + Times(x, n)
    decreases m
  {
    if m > 0 { TimesAdds(x, m - 1, n); }
  }

  lemma {:induction false} TimesTimes(x: int, m: nat, n: nat)
    ensures Times(m, n) >= 0 && Times(Times(x, m), n) == Times(x, Times(m, n))
    decreases n
  {
    if n > 0 {
      TimesTimes(x, m, n - 1);
      TimesAdds(x, m, Times(m, n - 1));
    }
  }

  lemma {:induction false} WholePeriods(d: int, n: nat, span: nat)
    requires d > 0 && Times(d, n) <= span
    ensures n <= Periods(d, span)
    decreases n
  {
    if n > 0 { WholePeriods(d, n - 1, span - d); }
  }

  lemma Affords(d: int, n: nat, m: nat, span: nat)
    requires d > 0 && Times(d, n) <= Times(d, m) + span
    ensures n <= m + Periods(d, span)
  {
    if n > m {
      TimesAdds(d, m, n - m);
      WholePeriods(d, n - m, span);
    }
  }

  lemma TokensOf(refill: int, burst: nat, full: int, allowed: nat, evictions: nat, span: nat)
    requires refill > 0 && full == Times(refill, burst)
    requires Times(refill, allowed) <= full + span + Times(full, evictions)
    ensures allowed <= Times(burst, 1 + evictions) + Periods(refill, span)
  {
    var more := Times(burst, evictions);
    TimesTimes(refill, burst, evictions);
    TimesAdds(refill, burst, more);
    Affords(refill, allowed, burst + more, span);
  }

  lemma TokensWithin(c: Config, allowed: nat, evictions: nat, span: nat)
    requires c.Valid()
    requires Times(c.refill, allowed) <= c.Full() + span + Times(c.Full(), evictions)
    ensures allowed <= Allowance(c, evictions, span)
  {
    TokensOf(c.refill, c.burst, c.Full(), allowed, evictions, span);
  }

  lemma CancelFactor(x: int, m: int, n: int)
    requires x > 0 && x * m < x * n
    ensures m < n
  {
  }

  // ----- the wait -----

  ghost predicate KeyRefused(c: Config, s: State, xs: seq<Attempt>, key: string)
    decreases |xs|
  {
    xs == [] ||
    ((xs[0].key == key ==> Decide(c, s, key, xs[0].now).Refused?)
     && KeyRefused(c, Step(c, s, xs[0]), xs[1..], key))
  }

  lemma {:induction false} RefusedIsNotAllowed(c: Config, s: State, xs: seq<Attempt>, key: string)
    requires KeyRefused(c, s, xs, key)
    ensures AllowedCount(c, s, xs, key) == 0
    decreases |xs|
  {
    if xs != [] { RefusedIsNotAllowed(c, Step(c, s, xs[0]), xs[1..], key); }
  }

  /** `key` has at least what it needs to hold a token at `due`, whenever it is looked at. */
  ghost predicate OnSchedule(c: Config, s: State, key: string, due: int) {
    forall t: int :: Balance(c, s.buckets, key, t) >= c.refill - (due - t)
                     || Balance(c, s.buckets, key, t) == c.Full()
  }

  lemma StepStaysOnSchedule(c: Config, s: State, a: Attempt, key: string, due: int)
    requires Valid(c, s) && CanStep(c, s, a) && OnSchedule(c, s, key, due)
    requires a.key == key ==> Decide(c, s, key, a.now).Refused?
    ensures OnSchedule(c, Step(c, s, a), key, due)
  {
    var u := Step(c, s, a);
    assert Balance(c, s.buckets, key, a.now) >= c.refill - (due - a.now)
           || Balance(c, s.buckets, key, a.now) == c.Full();
    forall t: int
      ensures Balance(c, u.buckets, key, t) >= c.refill - (due - t) || Balance(c, u.buckets, key, t) == c.Full()
    {
      if a.key != key && key in u.buckets {
        assert Balance(c, u.buckets, key, t) == Balance(c, s.buckets, key, t);
      }
    }
  }

  /** While a key is refused it stays on schedule towards the moment it was promised, whatever the clock reads;
      an eviction can only bring that moment forward. */
  lemma {:induction false} Waiting(c: Config, s: State, xs: seq<Attempt>, key: string, due: int)
    requires Valid(c, s) && Run(c, s, xs) && KeyRefused(c, s, xs, key) && OnSchedule(c, s, key, due)
    ensures OnSchedule(c, After(c, s, xs), key, due)
    decreases |xs|
  {
    if xs != [] {
      StepStaysOnSchedule(c, s, xs[0], key, due);
      AllowStaysValid(c, s, xs[0].key, xs[0].now, xs[0].victim);
      Waiting(c, Step(c, s, xs[0]), xs[1..], key, due);
    }
  }

  /** While a key is refused and not evicted it gains at most what the clock moves forwards. */
  lemma GainsAtMost(c: Config, s: State, clock: int, xs: seq<Attempt>, key: string, next: int)
    requires Valid(c, s) && Run(c, s, xs) && KeyRefused(c, s, xs, key) && EvictionCount(xs, key) == 0
    ensures Balance(c, After(c, s, xs).buckets, key, next)
            <= Balance(c, s.buckets, key, clock) + Forward(clock, xs) + Rise(EndTime(clock, xs), next)
  {
    CreditIsConserved(c, s, clock, xs, key);
    SpendingIsCounted(c, s, xs, key);
    IncomeIsCounted(c, clock, xs, key);
    RefusedIsNotAllowed(c, s, xs, key);
    RunStaysValid(c, s, xs);
    BalanceMoves(c, After(c, s, xs), key, EndTime(clock, xs), next);
  }

  lemma RefusalPutsOnSchedule(c: Config, s: State, a: Attempt)
    requires Valid(c, s) && CanStep(c, s, a) && Decide(c, s, a.key, a.now).Refused?
    ensures var d := Decide(c, s, a.key, a.now);
            && 0 < d.wait <= c.refill
            && OnSchedule(c, Step(c, s, a), a.key, a.now + d.wait)
            && Balance(c, Step(c, s, a).buckets, a.key, a.now) == c.refill - d.wait
  {
  }

  /** What the wait returned with a refusal promises, however the clock is read. It lies in (0, refill].
      However many refused attempts of the key, attempts of other keys and evictions come between, an attempt
      at or after it is allowed. Until the clock has moved forwards by it an attempt is refused, unless the cap
      evicted the key; the new wait then lies between what is left by the clock and what is left of the
      forward moves. */
  lemma WaitUnderAnyClock(c: Config, s: State, refused: Attempt, between: seq<Attempt>, next: Attempt)
    requires Valid(c, s) && Run(c, s, [refused] + between + [next])
    requires next.key == refused.key && Decide(c, s, refused.key, refused.now).Refused?
    requires KeyRefused(c, Step(c, s, refused), between, refused.key)
    ensures var wait := Decide(c, s, refused.key, refused.now).wait;
            var moved := Forward(refused.now, between + [next]);
            var d := Decide(c, After(c, Step(c, s, refused), between), next.key, next.now);
            && 0 < wait <= c.refill
            && (next.now >= refused.now + wait ==> d.Allowed?)
            && (moved < wait && EvictionCount(between, refused.key) == 0 ==>
                  d.Refused? && wait - moved <= d.wait <= wait - (next.now - refused.now))
  {
    var key, t := refused.key, Step(c, s, refused);
    var wait := Decide(c, s, key, refused.now).wait;
    assert [refused] + between + [next] == [refused] + (between + [next]);
    RunCons(c, s, refused.now, refused, between + [next]);
    RunSplits(c, t, refused.now, between, [next]);
    RefusalPutsOnSchedule(c, s, refused);
    AllowStaysValid(c, s, key, refused.now, refused.victim);
    Waiting(c, t, between, key, refused.now + wait);
    if EvictionCount(between, key) == 0 {
      GainsAtMost(c, t, refused.now, between, key, next.now);
      RunCons(c, t, EndTime(refused.now, between), next, []);
    }
    assert OnSchedule(c, After(c, t, between), key, refused.now + wait);
    DecideOnSchedule(c, After(c, t, between), key, next.now, refused.now + wait);
  }

  lemma DecideOnSchedule(c: Config, s: State, key: string, now: int, due: int)
    requires c.Valid() && OnSchedule(c, s, key, due)
    ensures now >= due ==> Decide(c, s, key, now).Allowed?
    ensures Decide(c, s, key, now).Refused? ==> Decide(c, s, key, now).wait <= due - now
  {
    assert Balance(c, s.buckets, key, now) >= c.refill - (due - now) || Balance(c, s.buckets, key, now) == c.Full();
  }

  /** With readings that never decrease the wait is exact: an attempt before it is refused with the remaining
      wait, one at or after it is allowed. */
  lemma WaitIsExact(c: Config, s: State, refused: Attempt, between: seq<Attempt>, next: Attempt)
    requires Valid(c, s) && Run(c, s, [refused] + between + [next])
    requires next.key == refused.key && Decide(c, s, refused.key, refused.now).Refused?
    requires KeyRefused(c, Step(c, s, refused), between, refused.key)
    requires Monotone(refused.now, between + [next])
    ensures var wait := Decide(c, s, refused.key, refused.now).wait;
            var d := Decide(c, After(c, Step(c, s, refused), between), next.key, next.now);
            && (next.now >= refused.now + wait ==> d.Allowed?)
            && (next.now < refused.now + wait && EvictionCount(between, refused.key) == 0 ==>
                  d == Refused(refused.now + wait - next.now))
  {
    WaitUnderAnyClock(c, s, refused, between, next);
    ForwardOfMonotone(refused.now, between + [next]);
    RunSplits(c, s, refused.now, between, [next]);
  }

  // ----- Retry-After -----

  /** Go's integer division, which truncates toward zero. */
  function TruncDiv(a: int, b: int): int
    requires b > 0
  {
    if a >= 0 then a / b else -((-a) / b)
  }

  function RetryAfterSeconds(retry: int): int {
    var seconds := TruncDiv(retry + SECOND - 1, SECOND);
    if seconds < 1 then 1 else seconds
  }

  /** The least positive whole number of seconds covering the wait. */
  lemma RetryAfterIsLeast(retry: int, n: int)
    ensures RetryAfterSeconds(retry) >= 1 && RetryAfterSeconds(retry) * SECOND >= retry
    ensures n >= 1 && n * SECOND >= retry ==> RetryAfterSeconds(retry) <= n
  {
  }
}
