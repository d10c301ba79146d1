/** The pruning limiter against one that remembers every key forever, and exactly when the two agree. */
module LimiterIdeal {
  import opened Text
  import opened Clock
  import opened Limiter
  import opened LimiterRuns
  import opened LimiterWindows

  /** The ideal token bucket: no sweep, no cap. */
  function IdealStep(c: Config, ideal: Buckets, key: string, now: int): Buckets {
    var b := Balance(c, ideal, key, now);
    ideal[key := Bucket(if b < c.refill then b else b - c.refill, now)]
  }

  function IdealAfter(c: Config, ideal: Buckets, xs: seq<Attempt>): Buckets
    decreases |xs|
  {
    if xs == [] then ideal else IdealAfter(c, IdealStep(c, ideal, xs[0].key, xs[0].now), xs[1..])
  }

  function Decisions(c: Config, s: State, xs: seq<Attempt>): (ds: seq<Decision>)
    ensures |ds| == |xs|
    decreases |xs|
  {
    if xs == [] then []
    else [Decide(c, s, xs[0].key, xs[0].now)] + Decisions(c, Step(c, s, xs[0]), xs[1..])
  }

  function IdealDecide(c: Config, ideal: Buckets, key: string, now: int): Decision {
    Decide(c, State(ideal, 0), key, now)
  }

  function IdealDecisions(c: Config, ideal: Buckets, xs: seq<Attempt>): (ds: seq<Decision>)
    ensures |ds| == |xs|
    decreases |xs|
  {
    if xs == [] then []
    else
      [IdealDecide(c, ideal, xs[0].key, xs[0].now)]
      + IdealDecisions(c, IdealStep(c, ideal, xs[0].key, xs[0].now), xs[1..])
  }

  /** A possible run that evicts nobody and never reads the clock more than `slack` before the last sweep. */
  ghost predicate Calm(c: Config, s: State, slack: int, xs: seq<Attempt>)
    decreases |xs|
  {
    xs == []
    || (CanStep(c, s, xs[0]) && xs[0].victim.None? && s.lastSweep - slack <= xs[0].now
        && Calm(c, Step(c, s, xs[0]), slack, xs[1..]))
  }

  ghost predicate AlwaysInvisible(c: Config, slack: int) {
    forall xs | Calm(c, NEW, slack, xs) :: Decisions(c, NEW, xs) == IdealDecisions(c, map[], xs)
  }

  // ----- when they agree -----

  ghost predicate IdealValid(c: Config, ideal: Buckets) {
    c.Valid() && forall k | k in ideal :: 0 <= ideal[k].credit <= c.Full()
  }

  /** From the last sweep on the two give every key the same balance. */
  ghost predicate SameBalances(c: Config, s: State, ideal: Buckets) {
    forall k: string, t: int | s.lastSweep <= t :: Balance(c, s.buckets, k, t) == Balance(c, ideal, k, t)
  }

  /** One that is full stays full, so a sweep forgets nothing that could still be told apart. */
  lemma FullStaysFull(c: Config, ideal: Buckets, k: string, t: int, u: int)
    requires IdealValid(c, ideal) && Balance(c, ideal, k, t) == c.Full() && t <= u
    ensures Balance(c, ideal, k, u) == c.Full()
  {
  }

  lemma SimulationStep(c: Config, s: State, ideal: Buckets, a: Attempt)
    requires Valid(c, s) && IdealValid(c, ideal) && SameBalances(c, s, ideal)
    requires CanStep(c, s, a) && a.victim.None? && s.lastSweep <= a.now
    ensures Decide(c, s, a.key, a.now) == IdealDecide(c, ideal, a.key, a.now)
    ensures IdealValid(c, IdealStep(c, ideal, a.key, a.now))
    ensures SameBalances(c, Step(c, s, a), IdealStep(c, ideal, a.key, a.now))
  {
    var u, i := Step(c, s, a), IdealStep(c, ideal, a.key, a.now);
    assert Balance(c, s.buckets, a.key, a.now) == Balance(c, ideal, a.key, a.now);
    forall k: string, t: int | u.lastSweep <= t
      ensures Balance(c, u.buckets, k, t) == Balance(c, i, k, t)
    {
      assert Balance(c, s.buckets, k, t) == Balance(c, ideal, k, t);
      if k != a.key && k in s.buckets && k !in u.buckets {
        assert Balance(c, s.buckets, k, a.now) == Balance(c, ideal, k, a.now);
        FullStaysFull(c, ideal, k, a.now, t);
      }
    }
  }

  lemma {:induction false} Simulation(c: Config, s: State, ideal: Buckets, xs: seq<Attempt>)
    requires Valid(c, s) && IdealValid(c, ideal) && SameBalances(c, s, ideal) && Calm(c, s, 0, xs)
    ensures Decisions(c, s, xs) == IdealDecisions(c, ideal, xs)
    decreases |xs|
  {
    if xs != [] {
      SimulationStep(c, s, ideal, xs[0]);
      AllowStaysValid(c, s, xs[0].key, xs[0].now, xs[0].victim);
      Simulation(c, Step(c, s, xs[0]), IdealStep(c, ideal, xs[0].key, xs[0].now), xs[1..]);
    }
  }

  /** While the cap evicts nobody and no reading falls before the last sweep, every decision and every wait of the
      pruning limiter is that of the limiter that never forgets. */
  lemma PruningIsInvisible(c: Config, xs: seq<Attempt>)
    requires c.Valid() && Calm(c, NEW, 0, xs)
    ensures Decisions(c, NEW, xs) == IdealDecisions(c, map[], xs)
  {
    Simulation(c, NEW, map[], xs);
  }

  lemma {:induction false} CalmerIsCalm(c: Config, s: State, slack: int, xs: seq<Attempt>)
    requires Calm(c, s, slack, xs) && slack <= 0
    ensures Calm(c, s, 0, xs)
    decreases |xs|
  {
    if xs != [] { CalmerIsCalm(c, Step(c, s, xs[0]), slack, xs[1..]); }
  }

  /** Readings that never decrease never fall before a sweep. */
  lemma {:induction false} MonotoneIsCalm(c: Config, s: State, clock: int, xs: seq<Attempt>)
    requires Run(c, s, xs) && Monotone(clock, xs) && s.lastSweep <= clock && forall x | x in xs :: x.victim.None?
    ensures Calm(c, s, 0, xs)
    decreases |xs|
  {
    if xs != [] {
      assert xs[0] in xs && forall x | x in xs[1..] :: x in xs;
      MonotoneIsCalm(c, Step(c, s, xs[0]), xs[0].now, xs[1..]);
    }
  }

  // ----- when they do not -----

  lemma {:induction false} CalmSplits(c: Config, s: State, slack: int, xs: seq<Attempt>, ys: seq<Attempt>)
    ensures Calm(c, s, slack, xs + ys) <==> Calm(c, s, slack, xs) && Calm(c, After(c, s, xs), slack, ys)
    decreases |xs|
  {
    if xs == [] {
      assert xs + ys == ys;
    } else {
      assert (xs + ys)[1..] == xs[1..] + ys;
      CalmSplits(c, Step(c, s, xs[0]), slack, xs[1..], ys);
    }
  }

  lemma {:induction false} DecisionsSplit(c: Config, s: State, xs: seq<Attempt>, ys: seq<Attempt>)
    ensures Decisions(c, s, xs + ys) == Decisions(c, s, xs) + Decisions(c, After(c, s, xs), ys)
    decreases |xs|
  {
    if xs == [] {
      assert xs + ys == ys;
    } else {
      assert (xs + ys)[1..] == xs[1..] + ys;
      DecisionsSplit(c, Step(c, s, xs[0]), xs[1..], ys);
    }
  }

  lemma {:induction false} IdealDecisionsSplit(c: Config, ideal: Buckets, xs: seq<Attempt>, ys: seq<Attempt>)
    ensures IdealDecisions(c, ideal, xs + ys)
            == IdealDecisions(c, ideal, xs) + IdealDecisions(c, IdealAfter(c, ideal, xs), ys)
    decreases |xs|
  {
    if xs == [] {
      assert xs + ys == ys;
    } else {
      assert (xs + ys)[1..] == xs[1..] + ys;
      IdealDecisionsSplit(c, IdealStep(c, ideal, xs[0].key, xs[0].now), xs[1..], ys);
    }
  }

  /** A difference after any calm start shows. */
  lemma DifferenceShows(c: Config, s: State, ideal: Buckets, slack: int, xs: seq<Attempt>, ys: seq<Attempt>)
    requires Calm(c, s, slack, xs) && Calm(c, After(c, s, xs), slack, ys)
    requires Decisions(c, After(c, s, xs), ys) != IdealDecisions(c, IdealAfter(c, ideal, xs), ys)
    ensures Calm(c, s, slack, xs + ys) && Decisions(c, s, xs + ys) != IdealDecisions(c, ideal, xs + ys)
  {
    CalmSplits(c, s, slack, xs, ys);
    DecisionsSplit(c, s, xs, ys);
    IdealDecisionsSplit(c, ideal, xs, ys);
    assert Decisions(c, s, xs + ys)[|xs|..] == Decisions(c, After(c, s, xs), ys);
    assert IdealDecisions(c, ideal, xs + ys)[|xs|..] == IdealDecisions(c, IdealAfter(c, ideal, xs), ys);
  }

  /** A key that spends all it has at one reading is left with nothing, in both. */
  lemma {:induction false} CopiesDrain(c: Config, s: State, ideal: Buckets, slack: nat, key: string, now: int, m: nat)
    requires c.Valid() && m <= c.burst && s.lastSweep - slack <= now
    requires Holds(s, key, Times(c.refill, m), now) && s.buckets == ideal
    ensures var xs := Copies(key, now, m);
            && Calm(c, s, slack, xs)
            && After(c, s, xs) == State(s.buckets[key := Bucket(0, now)], s.lastSweep)
            && IdealAfter(c, ideal, xs) == s.buckets[key := Bucket(0, now)]
    decreases m
  {
    if m == 0 {
      assert s.buckets[key := Bucket(0, now)] == s.buckets;
    } else {
      TokensFit(c, m);
      TrackedStep(c, s, key, Times(c.refill, m), now, now);
      var x := Attempt(key, now, None);
      assert Copies(key, now, m)[1..] == Copies(key, now, m - 1);
      CopiesDrain(c, Step(c, s, x), IdealStep(c, ideal, key, now), slack, key, now, m - 1);
    }
  }

  /** One nanosecond of credit more, and the last of `m` attempts is decided differently. */
  lemma {:induction false} CopiesDiffer(c: Config, s: State, ideal: Buckets, slack: nat, key: string, now: int, m: nat)
    requires c.Valid() && 1 <= m <= c.burst && s.lastSweep - slack <= now
    requires CanStep(c, s, Attempt(key, now, None))
    requires Balance(c, s.buckets, key, now) == Times(c.refill, m)
    requires Balance(c, ideal, key, now) == Times(c.refill, m) - 1
    ensures Calm(c, s, slack, Copies(key, now, m))
    ensures Decisions(c, s, Copies(key, now, m)) != IdealDecisions(c, ideal, Copies(key, now, m))
    decreases m
  {
    var x := Attempt(key, now, None);
    var xs, rest := Copies(key, now, m), Copies(key, now, m - 1);
    assert xs[0] == x && xs[1..] == rest;
    TokensFit(c, m);
    var t, i := Step(c, s, x), IdealStep(c, ideal, key, now);
    PaysOneToken(c, s, key, now, m);
    if m == 1 {
      assert Times(c.refill, 1) == c.refill;
      assert Decisions(c, s, xs)[0] == Allowed && IdealDecisions(c, ideal, xs)[0] == Refused(1);
    } else {
      TokensFit(c, m - 1);
      CopiesDiffer(c, t, i, slack, key, now, m - 1);
      assert Decisions(c, s, xs)[1..] == Decisions(c, t, rest);
      assert IdealDecisions(c, ideal, xs)[1..] == IdealDecisions(c, i, rest);
    }
  }

  lemma PaysOneToken(c: Config, s: State, key: string, now: int, m: nat)
    requires c.Valid() && 1 <= m <= c.burst && CanStep(c, s, Attempt(key, now, None))
    requires Balance(c, s.buckets, key, now) == Times(c.refill, m)
    ensures var t := Step(c, s, Attempt(key, now, None));
            && Holds(t, key, Times(c.refill, m - 1), now)
            && (t.lastSweep == s.lastSweep || t.lastSweep == now)
  {
    TokensFit(c, m);
  }

  lemma IdealFirst(c: Config, key: string, now: int)
    requires c.Valid()
    ensures IdealStep(c, map[], key, now) == map[key := Bucket(Times(c.refill, c.burst - 1), now)]
  {
    TokensFit(c, c.burst);
  }

  lemma FirstCopy(c: Config, s: State, ideal: Buckets, slack: nat, key: string, now: int, n: nat)
    requires CanStep(c, s, Attempt(key, now, None)) && s.lastSweep - slack <= now
    ensures var xs, x := Copies(key, now, n + 1), Attempt(key, now, None);
            && (Calm(c, s, slack, xs) <==> Calm(c, Step(c, s, x), slack, Copies(key, now, n)))
            && After(c, s, xs) == After(c, Step(c, s, x), Copies(key, now, n))
            && IdealAfter(c, ideal, xs) == IdealAfter(c, IdealStep(c, ideal, key, now), Copies(key, now, n))
  {
    assert Copies(key, now, n + 1)[1..] == Copies(key, now, n);
  }

  lemma DrainAlone(c: Config, s: State, slack: nat, key: string, now: int)
    requires c.Valid() && s.lastSweep - slack <= now
    requires s.buckets == map[key := Bucket(Times(c.refill, c.burst - 1), now)]
    ensures var xs, empty := Copies(key, now, c.burst - 1), map[key := Bucket(0, now)];
            && Calm(c, s, slack, xs)
            && After(c, s, xs) == State(empty, s.lastSweep) && IdealAfter(c, s.buckets, xs) == empty
  {
    CopiesDrain(c, s, s.buckets, slack, key, now, c.burst - 1);
    assert s.buckets[key := Bucket(0, now)] == map[key := Bucket(0, now)];
  }

  /** A new limiter's first key spends its burst at `now`. */
  lemma SpentBurst(c: Config, slack: nat, key: string, now: int) returns (xs: seq<Attempt>)
    requires c.Valid() && 0 <= slack && c.Full() <= now - ZERO_TIME
    ensures Calm(c, NEW, slack, xs)
    ensures After(c, NEW, xs) == State(map[key := Bucket(0, now)], now)
    ensures IdealAfter(c, map[], xs) == map[key := Bucket(0, now)]
  {
    var s := Step(c, NEW, Attempt(key, now, None));
    FirstEver(c, key, now);
    IdealFirst(c, key, now);
    FirstCopy(c, NEW, map[], slack, key, now, c.burst - 1);
    DrainAlone(c, s, slack, key, now);
    xs := Copies(key, now, c.burst);
  }

  lemma FullIsSwept(c: Config, key: string, now: int)
    requires c.Valid()
    ensures Swept(c, map[key := Bucket(0, now)], now + c.Full()) == map[]
  {
  }

  /** An arrival that sweeps everything away. */
  lemma SweepsAll(c: Config, s: State, x: Attempt)
    requires c.Valid() && x.victim.None? && x.key !in s.buckets
    requires SweepDue(c, s, x.now) && Swept(c, s.buckets, x.now) == map[]
    ensures CanStep(c, s, x)
    ensures Step(c, s, x) == State(map[x.key := Bucket(c.Full() - c.refill, x.now)], x.now)
  {
    var none: Buckets := map[];
    assert none - {} == none;
  }

  lemma IdealRemembers(c: Config, ideal: Buckets, key: string, other: string, now: int)
    requires key in ideal && key != other
    ensures key in IdealStep(c, ideal, other, now) && IdealStep(c, ideal, other, now)[key] == ideal[key]
  {
  }

  /** Exactly when a bucket has filled, another key's arrival sweeps it away; the ideal limiter remembers it. */
  lemma SweepsAway(c: Config, s: State, key: string, other: string, now: int) returns (x: Attempt, t: State, i: Buckets)
    requires c.Valid() && key != other && s == State(map[key := Bucket(0, now)], now)
    ensures x == Attempt(other, now + c.Full(), None) && CanStep(c, s, x)
    ensures t == Step(c, s, x) == State(map[other := Bucket(c.Full() - c.refill, x.now)], x.now)
    ensures i == IdealStep(c, s.buckets, x.key, x.now) && key in i && i[key] == Bucket(0, now)
  {
    x := Attempt(other, now + c.Full(), None);
    FullIsSwept(c, key, now);
    SweepsAll(c, s, x);
    IdealRemembers(c, s.buckets, key, other, x.now);
    t, i := Step(c, s, x), IdealStep(c, s.buckets, x.key, x.now);
  }

  /** One nanosecond before the sweep the key is forgotten, hence full, and remembered one nanosecond short of full:
      reading the clock there decides differently. */
  lemma ForgottenShows(c: Config, slack: nat, key: string, other: string, now: int) returns (ys: seq<Attempt>)
    requires c.Valid() && c.max >= 2 && slack >= 1 && key != other
    ensures var s := State(map[key := Bucket(0, now)], now);
            Calm(c, s, slack, ys) && Decisions(c, s, ys) != IdealDecisions(c, s.buckets, ys)
  {
    var s := State(map[key := Bucket(0, now)], now);
    var x, t, i := SweepsAway(c, s, key, other, now);
    RoomForTwo(c, t, x.now - 1);
    var copies := DifferAt(c, t, i, slack, key, x.now - 1);
    LaterDifferenceShows(c, s, s.buckets, slack, x, copies);
    ys := [x] + copies;
  }

  lemma RoomForTwo(c: Config, t: State, now: int)
    requires c.Valid() && c.max >= 2 && |t.buckets| == 1 && now < t.lastSweep
    ensures !SweepDue(c, t, now)
  {
  }

  lemma DifferAt(c: Config, s: State, ideal: Buckets, slack: nat, key: string, now: int) returns (ys: seq<Attempt>)
    requires c.Valid() && s.lastSweep - slack <= now && CanStep(c, s, Attempt(key, now, None))
    requires Balance(c, s.buckets, key, now) == c.Full() && Balance(c, ideal, key, now) == c.Full() - 1
    ensures Calm(c, s, slack, ys) && Decisions(c, s, ys) != IdealDecisions(c, ideal, ys)
  {
    CopiesDiffer(c, s, ideal, slack, key, now, c.burst);
    ys := Copies(key, now, c.burst);
  }

  lemma LaterDifferenceShows(c: Config, s: State, ideal: Buckets, slack: int, x: Attempt, ys: seq<Attempt>)
    requires CanStep(c, s, x) && x.victim.None? && s.lastSweep - slack <= x.now && Calm(c, Step(c, s, x), slack, ys)
    requires Decisions(c, Step(c, s, x), ys) != IdealDecisions(c, IdealStep(c, ideal, x.key, x.now), ys)
    ensures Calm(c, s, slack, [x] + ys) && Decisions(c, s, [x] + ys) != IdealDecisions(c, ideal, [x] + ys)
  {
    assert ([x] + ys)[1..] == ys;
    assert Decisions(c, s, [x] + ys)[1..] == Decisions(c, Step(c, s, x), ys);
    assert IdealDecisions(c, ideal, [x] + ys)[1..] == IdealDecisions(c, IdealStep(c, ideal, x.key, x.now), ys);
  }

  lemma SweepShows(c: Config, slack: nat)
    requires c.Valid() && c.max >= 2 && slack >= 1
    ensures !AlwaysInvisible(c, slack)
  {
    var now := ZERO_TIME + c.Full();
    var xs := SpentBurst(c, slack, "a", now);
    var ys := ForgottenShows(c, slack, "a", "b", now);
    DifferenceShows(c, NEW, map[], slack, xs, ys);
  }
}
