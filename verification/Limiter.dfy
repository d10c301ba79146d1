/** The token-bucket limiter with pruning (internal/httpserver/ratelimit.go).

    A balance is kept as integer credit: tokens times the refill period in nanoseconds. In exact
    arithmetic every reachable balance is a whole number of nanoseconds, one token costs `refill`, and a
    full bucket holds `burst * refill`. Floating-point rounding is idealised away. */
module Limiter {
  import opened Text
  import opened Clock

  /** `n` times `x`. */
  function Times(x: int, n: nat): (r: int)
    ensures x >= 0 ==> r >= 0 && (n >= 1 ==> r >= x)
  {
    if n == 0 then 0 else x + Times(x, n - 1)
  }

  datatype Config = Config(burst: int, refill: int, max: int) {
    predicate Valid() { burst >= 1 && refill > 0 && max >= 1 }

    /** burst * refill. */
    function Full(): (f: int)
      ensures Valid() ==> f >= refill
    {
      Times(refill, if burst < 0 then 0 else burst)
    }
  }

  datatype Bucket = Bucket(credit: int, seen: int)

  type Buckets = map<string, Bucket>

  datatype State = State(buckets: Buckets, lastSweep: int)

  const NEW: State := State(map[], ZERO_TIME)

  datatype Decision = Allowed | Refused(wait: int)

  /** The credit a bucket has at `now`. */
  function Refilled(c: Config, b: Bucket, now: int): int {
    var elapsed := now - b.seen;
    if elapsed <= 0 then b.credit
    else if b.credit + elapsed < c.Full() then b.credit + elapsed else c.Full()
  }

  ghost predicate Valid(c: Config, s: State) {
    && c.Valid()
    && |s.buckets| <= c.max
    && forall k | k in s.buckets :: 0 <= s.buckets[k].credit <= c.Full()
  }

  // ----- prune -----

  function Swept(c: Config, buckets: Buckets, now: int): Buckets {
    map k | k in buckets && Refilled(c, buckets[k], now) < c.Full() :: buckets[k]
  }

  predicate SweepDue(c: Config, s: State, now: int) {
    !(|s.buckets| < c.max && now - s.lastSweep < c.Full())
  }

  ghost predicate Fullest(c: Config, buckets: Buckets, now: int, key: string) {
    key in buckets && forall k | k in buckets :: Refilled(c, buckets[k], now) <= Refilled(c, buckets[key], now)
  }

  /** Which key the cap evicts: none while dropping the full buckets makes room, otherwise a fullest one.
      Ties fall to whichever the map iterates over first, so any of them may go. */
  ghost predicate MayEvict(c: Config, s: State, now: int, victim: Option<string>) {
    if SweepDue(c, s, now) && |Swept(c, s.buckets, now)| >= c.max
    then victim.Some? && Fullest(c, Swept(c, s.buckets, now), now, victim.value)
    else victim.None?
  }

  function Pruned(c: Config, s: State, now: int, victim: Option<string>): State {
    if SweepDue(c, s, now)
    then State(Swept(c, s.buckets, now) - (if victim.Some? then {victim.value} else {}), now)
    else s
  }

  // ----- allow -----

  ghost predicate Legal(c: Config, s: State, key: string, now: int, victim: Option<string>) {
    if key in s.buckets then victim.None? else MayEvict(c, s, now, victim)
  }

  function Balance(c: Config, buckets: Buckets, key: string, now: int): int {
    if key in buckets then Refilled(c, buckets[key], now) else c.Full()
  }

  function Decide(c: Config, s: State, key: string, now: int): Decision {
    var credit := Balance(c, s.buckets, key, now);
    if credit < c.refill then Refused(c.refill - credit) else Allowed
  }

  /** Where the arriving key finds its place. */
  function Room(c: Config, s: State, key: string, now: int, victim: Option<string>): State {
    if key in s.buckets then s else Pruned(c, s, now, victim)
  }

  function Next(c: Config, s: State, key: string, now: int, victim: Option<string>): State {
    var room := Room(c, s, key, now, victim);
    var credit := Balance(c, s.buckets, key, now);
    var left := if credit < c.refill then credit else credit - c.refill;
    State(room.buckets[key := Bucket(left, now)], room.lastSweep)
  }

  lemma SizeOfSubset(small: Buckets, large: Buckets)
    requires small.Keys <= large.Keys
    ensures |small| <= |large|
  {
    SubsetSize(small.Keys, large.Keys);
    assert |small| == |small.Keys| && |large| == |large.Keys|;
  }

  lemma AllowStaysWithinCap(c: Config, s: State, key: string, now: int, victim: Option<string>)
    requires Valid(c, s) && Legal(c, s, key, now, victim)
    ensures |Next(c, s, key, now, victim).buckets| <= c.max
  {
    var t := Next(c, s, key, now, victim);
    if key in s.buckets {
      assert t.buckets.Keys == s.buckets.Keys;
      assert |t.buckets| == |s.buckets|;
    } else {
      var room := Pruned(c, s, now, victim).buckets;
      PruneMakesRoom(c, s, now, victim);
      assert t.buckets.Keys == room.Keys + {key};
      assert |t.buckets| == |room| + 1;
    }
  }

  lemma BalanceInRange(c: Config, s: State, key: string, now: int)
    requires Valid(c, s)
    ensures 0 <= Balance(c, s.buckets, key, now) <= c.Full()
  {
  }

  lemma SurvivorsStay(c: Config, s: State, key: string, now: int, victim: Option<string>, k: string)
    ensures k in Next(c, s, key, now, victim).buckets && k != key ==>
              k in s.buckets && Next(c, s, key, now, victim).buckets[k] == s.buckets[k]
  {
  }

  lemma AllowStaysValid(c: Config, s: State, key: string, now: int, victim: Option<string>)
    requires Valid(c, s) && Legal(c, s, key, now, victim)
    ensures Valid(c, Next(c, s, key, now, victim)) && key in Next(c, s, key, now, victim).buckets
  {
    var t := Next(c, s, key, now, victim);
    AllowStaysWithinCap(c, s, key, now, victim);
    BalanceInRange(c, s, key, now);
    forall k | k in t.buckets ensures 0 <= t.buckets[k].credit <= c.Full() {
      if k != key { SurvivorsStay(c, s, key, now, victim, k); }
    }
  }

  /** The arrival is let in after the pruning: the map never passes its cap, the arriving key is always
      tracked, balances stay within [0, burst], at most one key is evicted and it is no emptier than any
      bucket that survives. */
  lemma AllowKeepsBounds(c: Config, s: State, key: string, now: int, victim: Option<string>)
    requires Valid(c, s) && Legal(c, s, key, now, victim)
    ensures Valid(c, Next(c, s, key, now, victim))
    ensures key in Next(c, s, key, now, victim).buckets
    ensures victim.Some? ==>
              && victim.value in s.buckets && victim.value != key
              && forall k | k in Next(c, s, key, now, victim).buckets && k != key ::
                   k in s.buckets && Refilled(c, s.buckets[k], now) <= Refilled(c, s.buckets[victim.value], now)
  {
    AllowStaysValid(c, s, key, now, victim);
  }

  lemma PruneMakesRoom(c: Config, s: State, now: int, victim: Option<string>)
    requires Valid(c, s) && MayEvict(c, s, now, victim)
    ensures |Pruned(c, s, now, victim).buckets| < c.max
  {
    var swept := Swept(c, s.buckets, now);
    SizeOfSubset(swept, s.buckets);
    var room := Pruned(c, s, now, victim).buckets;
    if victim.Some? {
      assert room.Keys == swept.Keys - {victim.value};
      assert |room| == |swept| - 1;
    } else if SweepDue(c, s, now) {
      assert room == swept;
    }
  }

  // ----- the limiter as the source keeps it -----

  class TokenBuckets {
    const config: Config
    var buckets: Buckets
    var lastSweep: int

    ghost function Contents(): State
      reads this
    {
      State(buckets, lastSweep)
    }

    ghost predicate Ok()
      reads this
    {
      Valid(config, Contents())
    }

    /** newLimiter: a cap below one is raised to one, so that there is a place for whoever arrives. */
    constructor (burst: int, refill: int, max: int)
      requires burst >= 1 && refill > 0
      ensures Ok() && Contents() == NEW
      ensures config == Config(burst, refill, if max < 1 then 1 else max)
    {
      config := Config(burst, refill, if max < 1 then 1 else max);
      buckets := map[];
      lastSweep := ZERO_TIME;
    }

    /** allow, with the clock reading it took. The ghost result names the evicted key, if any. */
    method Allow(key: string, now: int) returns (decision: Decision, ghost victim: Option<string>)
      requires Ok()
      modifies this
      ensures Ok()
      ensures Legal(config, old(Contents()), key, now, victim)
      ensures decision == Decide(config, old(Contents()), key, now)
      ensures Contents() == Next(config, old(Contents()), key, now, victim)
    {
      ghost var before := Contents();
      var b := Bucket(config.Full(), now);
      victim := None;
      if key in buckets {
        b := Bucket(Refilled(config, buckets[key], now), now);
      } else {
        victim := Prune(now);
      }
      ghost var room := Contents();
      assert b.credit == Balance(config, before.buckets, key, now);
      AllowStaysValid(config, before, key, now, victim);
      assert room == Room(config, before, key, now, victim);
      if b.credit < config.refill {
        buckets := buckets[key := b];
        decision := Refused(config.refill - b.credit);
      } else {
        b := Bucket(b.credit - config.refill, now);
        buckets := buckets[key := b];
        decision := Allowed;
      }
    }

    method Prune(now: int) returns (ghost victim: Option<string>)
      requires Ok()
      modifies this
      ensures MayEvict(config, old(Contents()), now, victim)
      ensures Contents() == Pruned(config, old(Contents()), now, victim)
    {
      victim := None;
      if |buckets| < config.max && now - lastSweep < config.Full() {
        return;
      }
      lastSweep := now;
      DropFull(now);
      ghost var swept := buckets;
      SizeOfSubset(swept, old(buckets));
      while |buckets| >= config.max
        invariant lastSweep == now
        invariant victim.None? ==> buckets == swept
        invariant victim.Some? ==>
                    |swept| >= config.max && |buckets| < config.max &&
                    Fullest(config, swept, now, victim.value) && buckets == swept - {victim.value}
        decreases |buckets|
      {
        var fullest := FindFullest(now);
        victim := Some(fullest);
        assert (buckets - {fullest}).Keys == buckets.Keys - {fullest};
        buckets := buckets - {fullest};
      }
      assert victim.None? ==> swept - {} == swept;
    }

    method DropFull(now: int)
      modifies this`buckets
      ensures buckets == Swept(config, old(buckets), now)
    {
      var keys := buckets.Keys;
      while keys != {}
        invariant keys <= buckets.Keys <= old(buckets).Keys
        invariant forall k | k in old(buckets) ::
                    k in buckets <==> k in keys || Refilled(config, old(buckets)[k], now) < config.Full()
        invariant forall k | k in buckets :: buckets[k] == old(buckets)[k]
        decreases |keys|
      {
        var key :| key in keys;
        if Refilled(config, buckets[key], now) >= config.Full() {
          buckets := buckets - {key};
        }
        keys := keys - {key};
      }
    }

    method FindFullest(now: int) returns (fullest: string)
      requires buckets != map[] && forall k | k in buckets :: buckets[k].credit >= 0
      requires config.Valid()
      ensures Fullest(config, buckets, now, fullest)
    {
      fullest := "";
      var most := -1;
      var keys := buckets.Keys;
      while keys != {}
        invariant keys <= buckets.Keys
        invariant keys == buckets.Keys ==> most == -1
        invariant keys < buckets.Keys ==>
                    fullest in buckets.Keys - keys && most == Refilled(config, buckets[fullest], now)
        invariant forall k | k in buckets && k !in keys :: Refilled(config, buckets[k], now) <= most
        decreases |keys|
      {
        var key :| key in keys;
        var tokens := Refilled(config, buckets[key], now);
        if tokens > most {
          fullest, most := key, tokens;
        }
        keys := keys - {key};
      }
    }
  }

  /** An unauthenticated route limited from both ends. */
  class AttemptLimit {
    const source: TokenBuckets
    const email: TokenBuckets

    constructor (source: TokenBuckets, email: TokenBuckets)
      ensures this.source == source && this.email == email
    {
      this.source, this.email := source, email;
    }

    /** attemptLimit.allow: a refused source spends nothing from the address. */
    method Allow(sourceKey: string, emailKey: string, sourceNow: int, emailNow: int) returns (decision: Decision)
      requires source != email && source.Ok() && email.Ok()
      modifies source, email
      ensures source.Ok() && email.Ok()
      ensures var refused := Decide(source.config, old(source.Contents()), sourceKey, sourceNow);
              if refused.Refused?
              then decision == refused && email.Contents() == old(email.Contents())
              else
                && decision == Decide(email.config, old(email.Contents()), emailKey, emailNow)
                && exists v :: Legal(email.config, old(email.Contents()), emailKey, emailNow, v) &&
                               email.Contents() == Next(email.config, old(email.Contents()), emailKey, emailNow, v)
      ensures exists v :: Legal(source.config, old(source.Contents()), sourceKey, sourceNow, v) &&
                          source.Contents() == Next(source.config, old(source.Contents()), sourceKey, sourceNow, v)
    {
      ghost var victim;
      decision, victim := source.Allow(sourceKey, sourceNow);
      if decision.Refused? {
        return;
      }
      ghost var other;
      decision, other := email.Allow(emailKey, emailNow);
    }
  }
}
