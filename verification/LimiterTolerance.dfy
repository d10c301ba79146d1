/** How far before the last sweep a clock reading may fall without the sweep being noticed. */
module LimiterTolerance {
  import opened Text
  import opened Clock
  import opened Limiter
  import opened LimiterRuns
  import opened LimiterWindows
  import opened LimiterIdeal

  /** Nothing, where the cap leaves room for two keys. With a cap of one a key can only be let in when the one that is
      tracked is full again, so a reading has to go back far enough for that. */
  function Tolerance(c: Config): int {
    if c.max >= 2 then 0
    else if 2 * c.refill <= c.Full() - c.refill + 1 then 2 * c.refill else c.Full() - c.refill + 1
  }

  // ----- a cap of one, within the tolerance -----

  /** What an attempt leaves a key with. */
  predicate Spent(c: Config, b: Bucket) {
    0 <= b.credit && (b.credit <= c.Full() - c.refill || b.credit < c.refill)
  }

  /** The bucket cannot be full again before `sweep`. */
  predicate Late(c: Config, b: Bucket, sweep: int) {
    b.seen < sweep ==> b.credit + (sweep - 1 - b.seen) < c.Full()
  }

  /** The one key that is tracked is remembered the same in both. */
  ghost predicate Alone(c: Config, s: State, ideal: Buckets) {
    && c.Valid() && c.max == 1 && IdealValid(c, ideal) && |s.buckets| <= 1
    && (s.buckets == map[] ==> ideal == map[])
    && forall k | k in s.buckets :: k in ideal && ideal[k] == s.buckets[k] && Spent(c, s.buckets[k])
  }

  /** Every other key is full from the last sweep on, and the tracked one is not before it. */
  ghost predicate Settled(c: Config, s: State, ideal: Buckets) {
    && (forall k | k in s.buckets :: Late(c, s.buckets[k], s.lastSweep))
    && (forall k: string, t: int | k !in s.buckets && s.lastSweep <= t :: Balance(c, ideal, k, t) == c.Full())
  }

  /** Nobody has been forgotten yet, or it has settled. */
  ghost predicate Unnoticed(c: Config, s: State, ideal: Buckets) {
    Alone(c, s, ideal) && (ideal.Keys <= s.buckets.Keys || Settled(c, s, ideal))
  }

  lemma OnlyKey(buckets: Buckets, k: string, j: string)
    requires |buckets| <= 1 && k in buckets && j in buckets
    ensures k == j
  {
    if k != j {
      assert {k, j} <= buckets.Keys;
      SubsetSize({k, j}, buckets.Keys);
    }
  }

  function Left(c: Config, b: Bucket, now: int): int {
    var credit := Refilled(c, b, now);
    if credit < c.refill then credit else credit - c.refill
  }

  lemma AttemptSpends(c: Config, b: Bucket, now: int)
    requires c.Valid() && Spent(c, b)
    ensures Spent(c, Bucket(Left(c, b, now), now))
  {
  }

  /** Within the tolerance an attempt of the tracked key does not bring it back before the sweep. */
  lemma AttemptStaysLate(c: Config, b: Bucket, sweep: int, now: int)
    requires c.Valid() && c.max == 1 && Spent(c, b) && Late(c, b, sweep) && sweep - Tolerance(c) <= now
    ensures Late(c, Bucket(Left(c, b, now), now), sweep)
  {
  }

  lemma LateIsNotFull(c: Config, b: Bucket, sweep: int, now: int)
    requires c.Valid() && Spent(c, b) && Late(c, b, sweep) && now < sweep
    ensures Refilled(c, b, now) < c.Full()
  {
  }

  lemma TrackedStaysUnnoticed(c: Config, s: State, ideal: Buckets, key: string, now: int)
    requires Unnoticed(c, s, ideal) && key in s.buckets && s.lastSweep - Tolerance(c) <= now
    ensures var x := Attempt(key, now, None);
            && Decide(c, s, key, now) == IdealDecide(c, ideal, key, now)
            && Unnoticed(c, Step(c, s, x), IdealStep(c, ideal, key, now))
  {
    var b := Bucket(Left(c, s.buckets[key], now), now);
    var t, i := Step(c, s, Attempt(key, now, None)), IdealStep(c, ideal, key, now);
    AttemptSpends(c, s.buckets[key], now);
    assert t == State(s.buckets[key := b], s.lastSweep) && i == ideal[key := b];
    assert t.buckets.Keys == s.buckets.Keys;
    SameSize(s.buckets, t.buckets);
    forall k | k in t.buckets ensures k == key { OnlyKey(s.buckets, k, key); }
    if Settled(c, s, ideal) {
      AttemptStaysLate(c, s.buckets[key], s.lastSweep, now);
      forall k: string, u: int | k !in t.buckets && t.lastSweep <= u ensures Balance(c, i, k, u) == c.Full() {
        assert Balance(c, ideal, k, u) == c.Full();
      }
    }
  }

  lemma SameSize(a: Buckets, b: Buckets)
    requires a.Keys == b.Keys
    ensures |a| == |b|
  {
    assert |a| == |a.Keys| && |b| == |b.Keys|;
  }

  /** With a cap of one a new key is let in only when the tracked one, if any, is full; it starts full in both. */
  lemma ArrivalIsFull(c: Config, s: State, ideal: Buckets, key: string, now: int)
    requires Unnoticed(c, s, ideal) && key !in s.buckets && CanStep(c, s, Attempt(key, now, None))
    ensures forall k | k in s.buckets :: Refilled(c, s.buckets[k], now) == c.Full()
    ensures Balance(c, ideal, key, now) == c.Full()
    ensures s.buckets != map[] ==> Step(c, s, Attempt(key, now, None)).lastSweep == now
    ensures s.buckets != map[] && Settled(c, s, ideal) ==> s.lastSweep <= now
  {
    var swept := Swept(c, s.buckets, now);
    if s.buckets != map[] {
      var b :| b in s.buckets;
      if b in swept { SubsetSize({b}, swept.Keys); }
      forall k | k in s.buckets ensures Refilled(c, s.buckets[k], now) == c.Full() { OnlyKey(s.buckets, k, b); }
      if Settled(c, s, ideal) && now < s.lastSweep { LateIsNotFull(c, s.buckets[b], s.lastSweep, now); }
    }
  }

  lemma ArrivalStaysUnnoticed(c: Config, s: State, ideal: Buckets, key: string, now: int)
    requires Unnoticed(c, s, ideal) && key !in s.buckets && CanStep(c, s, Attempt(key, now, None))
    ensures var x := Attempt(key, now, None);
            && Decide(c, s, key, now) == IdealDecide(c, ideal, key, now)
            && Unnoticed(c, Step(c, s, x), IdealStep(c, ideal, key, now))
  {
    ArrivalIsFull(c, s, ideal, key, now);
    var b := Bucket(c.Full() - c.refill, now);
    var t, i := Step(c, s, Attempt(key, now, None)), IdealStep(c, ideal, key, now);
    assert Swept(c, s.buckets, now) == map[];
    assert t.buckets == map[key := b] && i == ideal[key := b];
    if s.buckets != map[] {
      forall k: string, u: int | k !in t.buckets && t.lastSweep <= u ensures Balance(c, i, k, u) == c.Full() {
        if k in s.buckets {
          FullStaysFull(c, ideal, k, now, u);
        } else if !(ideal.Keys <= s.buckets.Keys) {
          assert Balance(c, ideal, k, u) == c.Full();
        }
      }
    }
  }

  lemma {:induction false} OneKeySimulation(c: Config, s: State, ideal: Buckets, slack: int, xs: seq<Attempt>)
    requires Unnoticed(c, s, ideal) && slack <= Tolerance(c) && Calm(c, s, slack, xs)
    ensures Decisions(c, s, xs) == IdealDecisions(c, ideal, xs)
    decreases |xs|
  {
    if xs != [] {
      var x := xs[0];
      assert x == Attempt(x.key, x.now, None);
      if x.key in s.buckets {
        TrackedStaysUnnoticed(c, s, ideal, x.key, x.now);
      } else {
        ArrivalStaysUnnoticed(c, s, ideal, x.key, x.now);
      }
      OneKeySimulation(c, Step(c, s, x), IdealStep(c, ideal, x.key, x.now), slack, xs[1..]);
    }
  }

  lemma WithinTolerance(c: Config, slack: int, xs: seq<Attempt>)
    requires c.Valid() && slack <= Tolerance(c) && Calm(c, NEW, slack, xs)
    ensures Decisions(c, NEW, xs) == IdealDecisions(c, map[], xs)
  {
    if c.max >= 2 {
      CalmerIsCalm(c, NEW, slack, xs);
      PruningIsInvisible(c, xs);
    } else {
      OneKeySimulation(c, NEW, map[], slack, xs);
    }
  }

  // ----- a cap of one, beyond the tolerance -----

  lemma IdealOthers(c: Config, ideal: Buckets, xs: seq<Attempt>, key: string)
    requires key in ideal && forall x | x in xs :: x.key != key
    ensures key in IdealAfter(c, ideal, xs) && IdealAfter(c, ideal, xs)[key] == ideal[key]
    decreases |xs|
  {
    if xs != [] {
      assert xs[0] in xs && forall x | x in xs[1..] :: x in xs;
      IdealOthers(c, IdealStep(c, ideal, xs[0].key, xs[0].now), xs[1..], key);
    }
  }

  /** One attempt of the key that is tracked. */
  lemma OneAttempt(c: Config, s: State, slack: int, key: string, now: int) returns (xs: seq<Attempt>)
    requires c.Valid() && key in s.buckets && s.lastSweep - slack <= now
    ensures xs == [Attempt(key, now, None)] && Calm(c, s, slack, xs)
    ensures After(c, s, xs) == State(s.buckets[key := Bucket(Left(c, s.buckets[key], now), now)], s.lastSweep)
  {
    xs := [Attempt(key, now, None)];
    assert xs[1..] == [];
  }

  /** The key that swept another away steps back and is full again a nanosecond before its sweep. */
  ghost predicate Returns(c: Config, s: State, slack: int, key: string, xs: seq<Attempt>) {
    && Calm(c, s, slack, xs) && (forall x | x in xs :: x.key == key)
    && var t := After(c, s, xs);
       && t.lastSweep == s.lastSweep && t.buckets.Keys == {key}
       && Refilled(c, t.buckets[key], s.lastSweep - 1) == c.Full()
  }

  /** By one attempt far enough back. */
  lemma ReturnsAtOnce(c: Config, slack: nat, key: string, sweep: int) returns (xs: seq<Attempt>)
    requires c.Valid() && c.burst >= 2 && slack >= 2 * c.refill + 1
    ensures Returns(c, State(map[key := Bucket(c.Full() - c.refill, sweep)], sweep), slack, key, xs)
  {
    TokensFit(c, c.burst);
    TokensFit(c, c.burst - 1);
    var s := State(map[key := Bucket(c.Full() - c.refill, sweep)], sweep);
    xs := OneAttempt(c, s, slack, key, sweep - 1 - 2 * c.refill);
  }

  lemma ReturnsAfter(c: Config, s: State, slack: nat, key: string, xs: seq<Attempt>, ys: seq<Attempt>)
    requires Calm(c, s, slack, xs) && forall x | x in xs :: x.key == key
    requires After(c, s, xs).lastSweep == s.lastSweep && Returns(c, After(c, s, xs), slack, key, ys)
    ensures Returns(c, s, slack, key, xs + ys)
  {
    CalmSplits(c, s, slack, xs, ys);
    RunSplits(c, s, 0, xs, ys);
  }

  /** By spending all it has, waiting until it is a nanosecond short of a token, and then an attempt far enough back:
      two refused attempts cost it nothing. */
  lemma ReturnsRefused(c: Config, slack: nat, key: string, sweep: int) returns (xs: seq<Attempt>)
    requires c.Valid() && slack >= c.Full() - c.refill + 2
    ensures Returns(c, State(map[key := Bucket(c.Full() - c.refill, sweep)], sweep), slack, key, xs)
  {
    var s := State(map[key := Bucket(c.Full() - c.refill, sweep)], sweep);
    var spend := Copies(key, sweep, c.burst - 1);
    FullLessOne(c);
    DrainAlone(c, s, slack, key, sweep);
    var almost := WaitAndReturn(c, State(map[key := Bucket(0, sweep)], sweep), slack, key, sweep);
    ReturnsAfter(c, s, slack, key, spend, almost);
    xs := spend + almost;
  }

  lemma FullLessOne(c: Config)
    requires c.Valid()
    ensures c.Full() - c.refill == Times(c.refill, c.burst - 1)
  {
    TokensFit(c, c.burst);
  }

  lemma WaitAndReturn(c: Config, s: State, slack: nat, key: string, sweep: int) returns (xs: seq<Attempt>)
    requires c.Valid() && slack >= c.Full() - c.refill + 2 && s == State(map[key := Bucket(0, sweep)], sweep)
    ensures Returns(c, s, slack, key, xs)
  {
    var up := OneAttempt(c, s, slack, key, sweep + c.refill - 1);
    var t := State(map[key := Bucket(c.refill - 1, sweep + c.refill - 1)], sweep);
    assert After(c, s, up) == t;
    var back := OneAttempt(c, t, slack, key, sweep - 2 - (c.Full() - c.refill));
    ReturnsAfter(c, s, slack, key, up, back);
    xs := up + back;
  }

  lemma BurstOfOne(c: Config)
    ensures c.burst == 1 ==> c.Full() == c.refill
  {
    assert Times(c.refill, 1) == c.refill;
  }

  lemma ComesBack(c: Config, slack: nat, key: string, sweep: int) returns (xs: seq<Attempt>)
    requires c.Valid() && c.max == 1 && slack > Tolerance(c)
    ensures Returns(c, State(map[key := Bucket(c.Full() - c.refill, sweep)], sweep), slack, key, xs)
  {
    if 2 * c.refill <= c.Full() - c.refill + 1 {
      BurstOfOne(c);
      xs := ReturnsAtOnce(c, slack, key, sweep);
    } else {
      xs := ReturnsRefused(c, slack, key, sweep);
    }
  }

  /** When the other is full again before its sweep, the first can be let in there, and is noticed. */
  lemma ReturnShows(c: Config, t: State, j: Buckets, slack: nat, key: string, other: string, now: int)
      returns (xs: seq<Attempt>)
    requires c.Valid() && key != other && t.buckets.Keys == {other} && slack >= 1
    requires t.lastSweep == now + c.Full() && Refilled(c, t.buckets[other], t.lastSweep - 1) == c.Full()
    requires key in j && j[key] == Bucket(0, now)
    ensures Calm(c, t, slack, xs) && Decisions(c, t, xs) != IdealDecisions(c, j, xs)
  {
    assert Swept(c, t.buckets, t.lastSweep - 1) == map[];
    xs := DifferAt(c, t, j, slack, key, t.lastSweep - 1);
  }

  lemma BeyondTolerance(c: Config, slack: nat)
    requires c.Valid() && c.max == 1 && slack > Tolerance(c)
    ensures !AlwaysInvisible(c, slack)
  {
    var now := ZERO_TIME + c.Full();
    var spent := SpentBurst(c, slack, "a", now);
    var s := State(map["a" := Bucket(0, now)], now);
    var rest := AfterSweepShows(c, slack, "a", "b", now);
    DifferenceShows(c, NEW, map[], slack, spent, rest);
  }

  lemma AfterSweepShows(c: Config, slack: nat, key: string, other: string, now: int) returns (xs: seq<Attempt>)
    requires c.Valid() && c.max == 1 && slack > Tolerance(c) && key != other
    ensures var s := State(map[key := Bucket(0, now)], now);
            Calm(c, s, slack, xs) && Decisions(c, s, xs) != IdealDecisions(c, s.buckets, xs)
  {
    var s := State(map[key := Bucket(0, now)], now);
    var x, t, i := SweepsAway(c, s, key, other, now);
    var back := ComesBack(c, slack, other, x.now);
    IdealOthers(c, i, back, key);
    var copies := ReturnShows(c, After(c, t, back), IdealAfter(c, i, back), slack, key, other, now);
    DifferenceShows(c, t, i, slack, back, copies);
    LaterDifferenceShows(c, s, s.buckets, slack, x, back + copies);
    xs := [x] + (back + copies);
  }

  // ----- exactly -----

  /** Every run without evictions whose readings fall at most `slack` before the last sweep decides like the limiter
      that never forgets, if and only if `slack` is within the tolerance: for every burst, refill and cap. */
  lemma PruningIsInvisibleExactlyWhen(c: Config, slack: int)
    requires c.Valid()
    ensures AlwaysInvisible(c, slack) <==> slack <= Tolerance(c)
  {
    if slack <= Tolerance(c) {
      forall xs | Calm(c, NEW, slack, xs) ensures Decisions(c, NEW, xs) == IdealDecisions(c, map[], xs) {
        WithinTolerance(c, slack, xs);
      }
    } else if c.max >= 2 {
      SweepShows(c, slack);
    } else {
      BeyondTolerance(c, slack);
    }
  }
}
