/** The database health probe (internal/httpserver/health.go): an event loop with at most one ping in flight,
    publishing whole snapshots. */
module Health {
  import opened Text
  import opened Clock

  const PROBE_INTERVAL: int := 30 * SECOND
  const STALE_AFTER: int := 3 * PROBE_INTERVAL

  datatype Status = Unknown | Healthy | Failing | Stale

  datatype Snapshot = Snapshot(status: Status, recordedAt: int, duration: int, lastSuccessfulDuration: int,
                               consecutiveFailures: nat, totalFailures: nat,
                               lastFailureAt: int, lastFailureDuration: int, lastError: Option<string>)

  const INITIAL: Snapshot := Snapshot(Unknown, ZERO_TIME, 0, 0, 0, 0, ZERO_TIME, 0, None)

  /** What a ping answered: when it finished, how long it took, and the error if it failed. */
  datatype PingResult = PingResult(finished: int, duration: int, error: Option<string>)

  /** The snapshot that follows `previous` when a result comes in. */
  function Publish(previous: Snapshot, r: PingResult): Snapshot {
    var next := Snapshot(Unknown, r.finished, r.duration, previous.lastSuccessfulDuration,
                         previous.consecutiveFailures, previous.totalFailures,
                         previous.lastFailureAt, previous.lastFailureDuration, None);
    if r.error.None? then next.(status := Healthy, consecutiveFailures := 0, lastSuccessfulDuration := r.duration)
    else next.(status := Failing, consecutiveFailures := next.consecutiveFailures + 1,
               totalFailures := next.totalFailures + 1, lastFailureAt := r.finished,
               lastFailureDuration := r.duration, lastError := r.error)
  }

  /** Probe.Snapshot: staleness is derived when it is read. */
  function Reading(current: Snapshot, now: int): Snapshot {
    if current.recordedAt != ZERO_TIME && now - current.recordedAt > STALE_AFTER
    then current.(status := Stale) else current
  }

  // ----- what a sequence of results should add up to -----

  function Failures(rs: seq<PingResult>): nat {
    if rs == [] then 0 else Failures(rs[..|rs| - 1]) + (if rs[|rs| - 1].error.Some? then 1 else 0)
  }

  /** How many results at the end failed in a row. */
  function FailureRun(rs: seq<PingResult>): nat {
    if rs == [] || rs[|rs| - 1].error.None? then 0 else 1 + FailureRun(rs[..|rs| - 1])
  }

  function LatestFailure(rs: seq<PingResult>): Option<PingResult> {
    if rs == [] then None
    else if rs[|rs| - 1].error.Some? then Some(rs[|rs| - 1])
    else LatestFailure(rs[..|rs| - 1])
  }

  function LatestSuccess(rs: seq<PingResult>): Option<PingResult> {
    if rs == [] then None
    else if rs[|rs| - 1].error.None? then Some(rs[|rs| - 1])
    else LatestSuccess(rs[..|rs| - 1])
  }

  function Summary(rs: seq<PingResult>): Snapshot {
    if rs == [] then INITIAL
    else
      var last, failed, succeeded := rs[|rs| - 1], LatestFailure(rs), LatestSuccess(rs);
      Snapshot(if last.error.None? then Healthy else Failing, last.finished, last.duration,
               if succeeded.Some? then succeeded.value.duration else 0,
               FailureRun(rs), Failures(rs),
               if failed.Some? then failed.value.finished else ZERO_TIME,
               if failed.Some? then failed.value.duration else 0,
               last.error)
  }

  /** Publishing one result at a time keeps the whole summary. */
  lemma PublishExtendsSummary(rs: seq<PingResult>, r: PingResult)
    ensures Publish(Summary(rs), r) == Summary(rs + [r])
  {
    assert (rs + [r])[..|rs|] == rs;
  }

  // ----- the loop and its surroundings -----

  /** The goroutine of start(): none, inside Ping, or its answer waiting in the channel. */
  datatype Ping = NoPing | Pinging(started: int) | Waiting(result: PingResult)

  /** Storing: between the check of the context and the swap of the snapshot, with the result that passed it. */
  datatype Phase = Selecting | Storing(result: PingResult) | Draining | Returned

  /** `seen` records the published results; no step reads it. */
  datatype State = State(phase: Phase, inFlight: bool, cancelled: bool, ping: Ping, lastLogged: Status,
                         published: Snapshot, seen: seq<PingResult>)

  function Started(now: int): State { State(Selecting, true, false, Pinging(now), Unknown, INITIAL, []) }

  datatype Event =
    | PingReturns(finished: int, error: Option<string>)
    | Cancel
    | TakeTick(now: int, started: int)
    | TakeResult
    | Store
    | TakeDone
    | TakeDrained

  predicate Enabled(s: State, e: Event) {
    match e
    case PingReturns(finished, error) => s.ping.Pinging?
    case Cancel => true
    case TakeTick(now, started) => s.phase.Selecting?
    case TakeResult => s.phase.Selecting? && s.ping.Waiting?
    case Store => s.phase.Storing?
    case TakeDone => s.phase.Selecting? && s.cancelled
    case TakeDrained => s.phase.Draining? && s.ping.Waiting?
  }

  function Next(s: State, e: Event): State
    requires Enabled(s, e)
  {
    match e
    case PingReturns(finished, error) => s.(ping := Waiting(PingResult(finished, finished - s.ping.started, error)))
    case Cancel => s.(cancelled := true)
    case TakeTick(now, started) =>
      var logged := s.(lastLogged := Reading(s.published, now).status);
      if s.inFlight then logged else logged.(inFlight := true, ping := Pinging(started))
    case TakeResult =>
      s.(inFlight := false, ping := NoPing, phase := if s.cancelled then Returned else Storing(s.ping.result))
    case Store =>
      var next := Publish(s.published, s.phase.result);
      s.(phase := Selecting, published := next, lastLogged := next.status, seen := s.seen + [s.phase.result])
    case TakeDone => s.(phase := if s.inFlight then Draining else Returned)
    case TakeDrained => s.(phase := Returned, ping := NoPing, inFlight := false)
  }

  predicate Possible(s: State, es: seq<Event>)
    decreases |es|
  {
    es == [] || (Enabled(s, es[0]) && Possible(Next(s, es[0]), es[1..]))
  }

  function After(s: State, es: seq<Event>): State
    requires Possible(s, es)
    decreases |es|
  {
    if es == [] then s else After(Next(s, es[0]), es[1..])
  }

  predicate Inv(s: State) {
    && (s.inFlight <==> !s.ping.NoPing?)
    && (s.phase.Draining? ==> s.inFlight && s.cancelled)
    && (s.phase.Storing? ==> !s.inFlight)
    && (s.phase.Returned? ==> s.ping.NoPing? && s.cancelled)
    && s.published == Summary(s.seen)
  }

  lemma StepKeepsInv(s: State, e: Event)
    requires Inv(s) && Enabled(s, e)
    ensures Inv(Next(s, e))
  {
    if e.Store? { PublishExtendsSummary(s.seen, s.phase.result); }
  }

  lemma {:induction false} RunKeepsInv(s: State, es: seq<Event>)
    requires Inv(s) && Possible(s, es)
    ensures Inv(After(s, es))
    decreases |es|
  {
    if es != [] {
      StepKeepsInv(s, es[0]);
      RunKeepsInv(Next(s, es[0]), es[1..]);
    }
  }

  /** In every trace the published snapshot is the summary of the results seen; a ping is started only when
      none is outstanding, and the loop returns only after cancellation and with none outstanding. */
  lemma EveryTraceIsSummarised(now: int, es: seq<Event>)
    requires Possible(Started(now), es)
    ensures var s := After(Started(now), es);
            && s.published == Summary(s.seen)
            && (s.inFlight <==> !s.ping.NoPing?)
            && (s.phase.Returned? ==> s.ping.NoPing? && s.cancelled)
    ensures forall at, started :: var s := After(Started(now), es);
              Enabled(s, TakeTick(at, started)) && Next(s, TakeTick(at, started)).ping != s.ping ==> s.ping.NoPing?
  {
    RunKeepsInv(Started(now), es);
  }

  // ----- after cancellation -----

  /** What can still come to be published once the context is cancelled: a result that had passed the check. */
  function Accepted(s: State): seq<PingResult> { if s.phase.Storing? then [s.phase.result] else [] }

  /** Once cancelled, at most the one result already accepted is still published, and exactly when the loop goes on to
      store it; no result received after the cancellation ever is. */
  lemma {:induction false} OnlyTheAcceptedIsPublished(s: State, es: seq<Event>)
    requires s.cancelled && Possible(s, es)
    ensures After(s, es).cancelled
    ensures After(s, es).seen == if Store in es then s.seen + Accepted(s) else s.seen
    ensures Store in es ==> s.phase.Storing? && After(s, es).published == Publish(s.published, s.phase.result)
    ensures Store !in es ==> After(s, es).published == s.published
    ensures !s.phase.Storing? ==> After(s, es).published == s.published && !After(s, es).phase.Storing?
    decreases |es|
  {
    if es != [] {
      OnlyTheAcceptedIsPublished(Next(s, es[0]), es[1..]);
      assert Store in es <==> es[0] == Store || Store in es[1..];
    }
  }

  /** And that one can be: when the cancellation falls between the check and the store, a caller who cancelled and read
      the old snapshot then reads a new one. */
  lemma CancelThenPublished(s: State, r: PingResult)
    requires s.phase == Storing(r) && !s.cancelled
    ensures Possible(s, [Cancel, Store]) && Possible(s, [Cancel])
    ensures After(s, [Cancel]).published == s.published
    ensures After(s, [Cancel, Store]).published == Publish(s.published, r)
  {
    Follow(s, [Cancel, Store]);
    Follow(s, [Cancel]);
    assert [Cancel, Store][1..] == [Store] && [Cancel][1..] == [];
    Follow(Next(s, Cancel), [Store]);
    assert [Store][1..] == [];
  }

  /** Events that are the loop's or the ping's own doing: not the clock's ticks, not the caller's cancellation. */
  predicate OfTheLoop(e: Event) { !e.Cancel? && !e.TakeTick? }

  function Ticks(es: seq<Event>): nat {
    if es == [] then 0 else (if es[0].TakeTick? then 1 else 0) + Ticks(es[1..])
  }

  function OwnEvents(es: seq<Event>): nat {
    if es == [] then 0 else (if OfTheLoop(es[0]) then 1 else 0) + OwnEvents(es[1..])
  }

  /** The most events of its own a cancelled loop still has to go through. */
  function Left(s: State): nat {
    match s.phase
    case Returned => 0
    case Storing(_) => 2
    case Draining => if s.ping.Waiting? then 1 else 2
    case Selecting => if s.ping.NoPing? then 1 else if s.ping.Waiting? then 2 else 3
  }

  lemma StepGetsNearer(s: State, e: Event)
    requires Inv(s) && s.cancelled && Enabled(s, e)
    ensures Left(Next(s, e)) + (if OfTheLoop(e) then 1 else 0) <= Left(s) + (if e.TakeTick? then 2 else 0)
    ensures Next(s, e).cancelled
  {
  }

  /** Once cancelled the loop returns, whatever the schedule: it goes through at most three events of its own and two
      more for every tick that the select still picks and that starts another ping; and until it has returned there is
      always such an event to come, the outstanding ping's answer or the loop's own reading of it. */
  lemma {:induction false} CancelledReturns(s: State, es: seq<Event>)
    requires Inv(s) && s.cancelled && Possible(s, es)
    ensures Left(After(s, es)) + OwnEvents(es) <= Left(s) + 2 * Ticks(es) && Left(s) <= 3
    ensures After(s, es).phase.Returned? || exists e :: OfTheLoop(e) && Enabled(After(s, es), e)
    decreases |es|
  {
    if es == [] {
      NotYetReturned(s);
    } else {
      StepKeepsInv(s, es[0]);
      StepGetsNearer(s, es[0]);
      CancelledReturns(Next(s, es[0]), es[1..]);
    }
  }

  lemma NotYetReturned(s: State)
    requires Inv(s) && s.cancelled
    ensures s.phase.Returned? || exists e :: OfTheLoop(e) && Enabled(s, e)
  {
    if s.ping.Pinging? {
      assert OfTheLoop(PingReturns(0, None)) && Enabled(s, PingReturns(0, None));
    } else if s.phase.Selecting? {
      assert OfTheLoop(TakeDone) && Enabled(s, TakeDone);
    } else if s.phase.Storing? {
      assert OfTheLoop(Store) && Enabled(s, Store);
    } else if s.phase.Draining? {
      assert OfTheLoop(TakeDrained) && Enabled(s, TakeDrained);
    }
  }

  lemma Follow(s: State, es: seq<Event>)
    requires es != [] && Enabled(s, es[0])
    ensures Possible(s, es) <==> Possible(Next(s, es[0]), es[1..])
    ensures Possible(s, es) ==> After(s, es) == After(Next(s, es[0]), es[1..])
  {
  }

  /** Healthy is reported exactly when the latest result seen was a success and is no older than the stale
      bound (a result stamped with the zero time never goes stale). */
  lemma HealthyExactlyWhen(s: State, now: int)
    requires Inv(s)
    ensures Reading(s.published, now).status == Healthy <==>
              s.seen != [] && s.seen[|s.seen| - 1].error.None?
              && (s.seen[|s.seen| - 1].finished == ZERO_TIME
                  || now - s.seen[|s.seen| - 1].finished <= STALE_AFTER)
  {
  }

  // ----- the loop as it is written -----

  class Probe {
    var state: Snapshot

    constructor ()
      ensures state == INITIAL
    {
      state := INITIAL;
    }

    method Snapshot(now: int) returns (current: Snapshot)
      ensures current == Reading(state, now)
    {
      current := state;
      if current.recordedAt != ZERO_TIME && now - current.recordedAt > STALE_AFTER {
        current := current.(status := Stale);
      }
    }

    /** Run, under a schedule that says what the select picks and when the ping and the context move. It reads the
        schedule to the end: where the source returns, `phase` is Returned and no event of the loop can follow. The
        ghost result is where the whole trace leads. */
    method Run(started: int, schedule: seq<Event>) returns (ghost end: State)
      requires state == INITIAL && Possible(Started(started), schedule)
      modifies this
      ensures end == After(Started(started), schedule) && state == end.published
    {
      var phase, inFlight, cancelled, ping, lastLogged := Selecting, true, false, Pinging(started), Unknown;
      ghost var seen: seq<PingResult> := [];
      var i := 0;
      ghost var at := Started(started);
      while i < |schedule|
        invariant 0 <= i <= |schedule|
        invariant at == State(phase, inFlight, cancelled, ping, lastLogged, state, seen)
        invariant Possible(at, schedule[i..]) && After(at, schedule[i..]) == After(Started(started), schedule)
      {
        Follow(at, schedule[i..]);
        assert schedule[i..][1..] == schedule[i + 1..];
        at := Next(at, schedule[i]);
        match schedule[i] {
          case PingReturns(finished, error) =>
            ping := Waiting(PingResult(finished, finished - ping.started, error));
          case Cancel =>
            cancelled := true;
          case TakeTick(now, started) =>
            var current := Snapshot(now);
            lastLogged := current.status;
            if !inFlight {
              inFlight, ping := true, Pinging(started);
            }
          case TakeResult =>
            var result := ping.result;
            inFlight, ping := false, NoPing;
            phase := if cancelled then Returned else Storing(result);
          case Store =>
            var result := phase.result;
            state := Publish(state, result);
            lastLogged := state.status;
            seen := seen + [result];
            phase := Selecting;
          case TakeDone =>
            phase := if inFlight then Draining else Returned;
          case TakeDrained =>
            phase, inFlight, ping := Returned, false, NoPing;
        }
        i := i + 1;
      }
      end := at;
      assert schedule[i..] == [];
    }
  }
}
