/** What becomes of every ping's answer, and what a reader is told, over whole traces of the probe. */
module HealthTraces {
  import opened Text
  import opened Clock
  import opened Health

  // ----- every answer is accounted for -----

  /** When the ping that is out was started, if one is: a tick starts one exactly when none is, and one is out until its
      answer is taken. */
  function NextOut(out: Option<int>, e: Event): Option<int> {
    match e
    case TakeTick(now, started) => if out.None? then Some(started) else out
    case TakeResult => None
    case TakeDrained => None
    case _ => out
  }

  function Out(out: Option<int>, es: seq<Event>): Option<int>
    decreases |es|
  {
    if es == [] then out else Out(NextOut(out, es[0]), es[1..])
  }

  function AnswerOf(out: Option<int>, e: Event): seq<PingResult> {
    if e.PingReturns? && out.Some? then [PingResult(e.finished, e.finished - out.value, e.error)] else []
  }

  /** What the pings of a trace answered, each with the time since its own start. */
  function Answers(out: Option<int>, es: seq<Event>): seq<PingResult>
    decreases |es|
  {
    if es == [] then [] else AnswerOf(out, es[0]) + Answers(NextOut(out, es[0]), es[1..])
  }

  /** Answers on their way: being stored, then waiting in the channel. */
  function Underway(s: State): seq<PingResult> {
    Accepted(s) + (if s.ping.Waiting? then [s.ping.result] else [])
  }

  function Known(s: State): seq<PingResult> { s.seen + Underway(s) }

  predicate Linked(s: State, out: Option<int>) {
    Inv(s) && (s.inFlight <==> out.Some?) && (s.ping.Pinging? ==> out == Some(s.ping.started))
  }

  predicate Drops(s: State, e: Event) { (e.TakeResult? && s.cancelled) || e.TakeDrained? }

  lemma StepLinks(s: State, out: Option<int>, e: Event)
    requires Linked(s, out) && Enabled(s, e)
    ensures Linked(Next(s, e), NextOut(out, e))
  {
    StepKeepsInv(s, e);
  }

  lemma StepFlows(s: State, out: Option<int>, e: Event)
    requires Linked(s, out) && Enabled(s, e) && !Drops(s, e)
    ensures Known(Next(s, e)) == Known(s) + AnswerOf(out, e)
  {
    var t := Next(s, e);
    assert t.seen == s.seen || e.Store?;
    assert Known(s) + [] == Known(s);
    if e.PingReturns? {
      assert Underway(s) == [] && Underway(t) == AnswerOf(out, e);
      assert s.seen + [] == s.seen;
    } else if e.Store? {
      assert Underway(s) == [s.phase.result] && Underway(t) == [];
      assert t.seen + [] == t.seen;
    } else {
      assert Underway(t) == Underway(s);
    }
  }

  lemma StepDrops(s: State, out: Option<int>, e: Event)
    requires Linked(s, out) && Enabled(s, e) && Drops(s, e)
    ensures |Underway(s)| == 1 && AnswerOf(out, e) == [] && Next(s, e).seen == s.seen && Next(s, e).phase.Returned?
  {
  }

  lemma {:induction false} NothingAfterReturn(s: State, out: Option<int>, es: seq<Event>)
    requires Linked(s, out) && s.phase.Returned? && Possible(s, es)
    ensures Answers(out, es) == [] && Known(After(s, es)) == s.seen
    ensures After(s, es).phase.Returned? && Linked(After(s, es), Out(out, es))
    decreases |es|
  {
    if es == [] {
      assert s.seen + [] == s.seen;
    } else {
      StepLinks(s, out, es[0]);
      NothingAfterReturn(Next(s, es[0]), NextOut(out, es[0]), es[1..]);
    }
  }

  lemma {:induction false} AnswersFlow(s: State, out: Option<int>, es: seq<Event>) returns (dropped: seq<PingResult>)
    requires Linked(s, out) && Possible(s, es)
    ensures Linked(After(s, es), Out(out, es))
    ensures Known(s) + Answers(out, es) == Known(After(s, es)) + dropped
    ensures |dropped| <= 1 && (dropped != [] ==> After(s, es).phase.Returned?)
    decreases |es|
  {
    if es == [] {
      dropped := [];
    } else {
      var t, next := Next(s, es[0]), NextOut(out, es[0]);
      StepLinks(s, out, es[0]);
      if Drops(s, es[0]) {
        dropped := Underway(s);
        StepDrops(s, out, es[0]);
        NothingAfterReturn(t, next, es[1..]);
      } else {
        dropped := AnswersFlow(t, next, es[1..]);
        StepFlows(s, out, es[0]);
        Associates(Known(s), AnswerOf(out, es[0]), Answers(next, es[1..]));
      }
    }
  }

  lemma Associates(a: seq<PingResult>, b: seq<PingResult>, c: seq<PingResult>)
    ensures a + b + c == a + (b + c)
  {
  }

  /** In every trace a ping is out exactly when one was started and its answer not taken, a tick having started one
      whenever none was out; and every answer, in order and with the time since its own start, was published, is
      underway, or was dropped, which only the last can be, and only by a loop that was cancelled and returned. */
  lemma EveryAnswerIsAccountedFor(now: int, es: seq<Event>) returns (dropped: seq<PingResult>)
    requires Possible(Started(now), es)
    ensures var s := After(Started(now), es);
            && (s.inFlight <==> Out(Some(now), es).Some?)
            && Answers(Some(now), es) == s.seen + Underway(s) + dropped
            && |dropped| <= 1 && (dropped != [] ==> s.phase.Returned? && s.cancelled)
  {
    var s := Started(now);
    dropped := AnswersFlow(s, Some(now), es);
    assert Known(s) == [] && [] + Answers(Some(now), es) == Answers(Some(now), es);
  }

  // ----- what a reader is told -----

  /** Ninety seconds. */
  predicate TooOld(finished: int, now: int) { finished != ZERO_TIME && now - finished > 90_000_000_000 }

  /** A reader is told the counts, times and error of all that was published, and the status of the latest result, or
      that it is stale; before the first result only that nothing is known. */
  lemma ReadingTells(s: State, now: int)
    requires Inv(s)
    ensures var r := Reading(s.published, now);
            && r.consecutiveFailures == FailureRun(s.seen) && r.totalFailures == Failures(s.seen)
            && (s.seen == [] ==>
                  && r.status == Unknown && r.recordedAt == ZERO_TIME && r.duration == 0
                  && r.lastSuccessfulDuration == 0 && r.lastFailureAt == ZERO_TIME && r.lastFailureDuration == 0
                  && r.lastError == None)
            && (s.seen != [] ==>
                  var last := s.seen[|s.seen| - 1];
                  && r.status == (if TooOld(last.finished, now) then Stale
                                  else if last.error == None then Healthy else Failing)
                  && r.recordedAt == last.finished && r.duration == last.duration && r.lastError == last.error)
            && (LatestFailure(s.seen).Some? ==>
                  && r.lastFailureAt == LatestFailure(s.seen).value.finished
                  && r.lastFailureDuration == LatestFailure(s.seen).value.duration)
            && (LatestSuccess(s.seen).Some? ==>
                  r.lastSuccessfulDuration == LatestSuccess(s.seen).value.duration)
  {
  }

  /** A tick is logged as a reader would be told at that moment, and changes nothing that was published; a result is
      logged as a success or a failure. */
  lemma LoggedAsRead(s: State, now: int, started: int)
    requires Inv(s)
    ensures s.phase.Selecting? ==>
              var t := Next(s, TakeTick(now, started));
              && t.published == s.published && t.seen == s.seen && t.phase == s.phase && t.cancelled == s.cancelled
              && t.ping == (if s.ping.NoPing? then Pinging(started) else s.ping)
              && t.lastLogged == (if s.seen == [] then Unknown
                                  else if TooOld(s.seen[|s.seen| - 1].finished, now) then Stale
                                  else if s.seen[|s.seen| - 1].error == None then Healthy else Failing)
    ensures s.phase.Storing? ==>
              Next(s, Store).lastLogged == if s.phase.result.error == None then Healthy else Failing
  {
  }
}
