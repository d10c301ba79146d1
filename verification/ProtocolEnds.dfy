/** Runs of the session protocol come to an end, and what the locks guarantee along the way. */
module ProtocolEnds {
  import opened Service
  import opened Locks
  import opened Protocol
  import opened ProtocolSafety
  import opened ProtocolTheorems

  // ----- how many steps are left -----

  /** The most steps a request still has to take. A restore by name looks its save up first. */
  function Rank(q: Req): nat {
    match q.pc
    case Arrived => 8
    case Queued => 7
    case AtLoad => if q.op.RestoreNamedOp? then 6 else 5
    case AtWork(_) => 4
    case AtCommit(_, _, _, _) => 3
    case AtUnlock(_) => 2
    case AtExit(_) => 1
  }

  lemma SizeWithout(reqs: map<nat, Req>, r: nat)
    requires r in reqs
    ensures |reqs - {r}| == |reqs| - 1
  {
    assert (reqs - {r}).Keys == reqs.Keys - {r};
  }

  lemma WithoutBoth(reqs: map<nat, Req>, r: nat, x: nat)
    ensures reqs - {r} - {x} == reqs - {x} - {r}
  {
  }

  ghost function SomeRequest(reqs: map<nat, Req>): (r: nat)
    requires reqs != map[]
    ensures r in reqs
  {
    var r :| r in reqs; r
  }

  ghost function Total(reqs: map<nat, Req>): (n: nat)
    ensures n <= 8 * |reqs|
    decreases |reqs|
  {
    if reqs == map[] then 0
    else
      var r := SomeRequest(reqs);
      SizeWithout(reqs, r);
      Rank(reqs[r]) + Total(reqs - {r})
  }

  lemma {:induction false} TotalWithout(reqs: map<nat, Req>, r: nat)
    requires r in reqs
    ensures Total(reqs) == Rank(reqs[r]) + Total(reqs - {r})
    decreases |reqs|
  {
    var x := SomeRequest(reqs);
    if x != r {
      SizeWithout(reqs, x);
      SizeWithout(reqs, r);
      TotalWithout(reqs - {x}, r);
      TotalWithout(reqs - {r}, x);
      WithoutBoth(reqs, r, x);
    }
  }

  predicate OfSomeRequest(step: Step) { !step.Open? && !step.DropSave? && !step.Arrive? }

  function RequestOf(step: Step): nat
    requires OfSomeRequest(step)
  {
    step.r
  }

  lemma StepperDescends(w: World, s: State, step: Step)
    requires OfSomeRequest(step) && Enabled(w, s, step)
    requires step.Work? ==> Works(s.reqs[step.r].op)
    ensures var t, r := Next(w, s, step), RequestOf(step);
            r in s.reqs && StepOf(step, r) && (r in t.reqs ==> Rank(t.reqs[r]) < Rank(s.reqs[r]))
  {
  }

  lemma TotalDescends(w: World, s: State, step: Step)
    requires Requests(w, s) && Enabled(w, s, step) && !step.Arrive?
    ensures Total(Next(w, s, step).reqs) + (if OfSomeRequest(step) then 1 else 0) <= Total(s.reqs)
  {
    var t := Next(w, s, step);
    if OfSomeRequest(step) {
      var r := step.r;
      if step.Work? { assert ReqOk(w, s.log, s.reqs[r]); }
      StepperDescends(w, s, step);
      RestUnmoved(w, s, step);
      TotalWithout(s.reqs, r);
      if r in t.reqs { TotalWithout(t.reqs, r); }
    }
  }

  lemma RestUnmoved(w: World, s: State, step: Step)
    requires OfSomeRequest(step) && Enabled(w, s, step)
    ensures Next(w, s, step).reqs - {step.r} == s.reqs - {step.r}
    ensures Rank(s.reqs[step.r]) > 0
    ensures step.r !in Next(w, s, step).reqs ==> Next(w, s, step).reqs == s.reqs - {step.r}
  {
    var t := Next(w, s, step);
    forall x
      ensures x in t.reqs && x != step.r <==> x in s.reqs && x != step.r
      ensures x in s.reqs && x != step.r ==> t.reqs[x] == s.reqs[x]
    {
      if x in t.reqs { NobodyElseArrives(w, s, step, x); }
      if x in s.reqs && x != step.r { OthersUnmoved(w, s, step, x); }
    }
  }

  function RequestSteps(steps: seq<Step>): nat {
    if steps == [] then 0 else (if OfSomeRequest(steps[0]) then 1 else 0) + RequestSteps(steps[1..])
  }

  lemma {:induction false} RunDescends(w: World, s: State, steps: seq<Step>)
    requires EngineContract(w) && Inv(w, s) && Possible(w, s, steps) && forall step | step in steps :: !step.Arrive?
    ensures RequestSteps(steps) + Total(After(w, s, steps).reqs) <= Total(s.reqs)
    decreases |steps|
  {
    if steps != [] {
      assert steps[0] in steps && forall step | step in steps[1..] :: step in steps;
      StepKeepsInv(w, s, steps[0]);
      TotalDescends(w, s, steps[0]);
      RunDescends(w, Next(w, s, steps[0]), steps[1..]);
    }
  }

  /** Once no request can step there is none left. */
  lemma StuckIsDone(w: World, s: State)
    requires Sound(s.locks) && Places(s)
    requires forall step | OfSomeRequest(step) :: !Enabled(w, s, step)
    ensures s.reqs == map[] && s.locks.table == map[]
  {
    if s.reqs != map[] {
      var r :| r in s.reqs;
      var x, step := SomebodyCanStep(w, s, r);
      assert OfSomeRequest(step);
    }
    TableIsExact(s.locks, LockName(0, ""));
  }

  /** However it is scheduled, once nobody arrives any more the requests take at most eight steps each, and when
      none of them can take another, all have left and no lock entry remains in any table. */
  lemma EveryRunEnds(w: World, before: seq<Step>, steps: seq<Step>)
    requires EngineContract(w) && Possible(w, START, before) && Possible(w, After(w, START, before), steps)
    requires forall step | step in steps :: !step.Arrive?
    ensures RequestSteps(steps) <= 8 * |After(w, START, before).reqs|
    ensures var t := After(w, After(w, START, before), steps);
            (forall step | OfSomeRequest(step) :: !Enabled(w, t, step)) ==> t.reqs == map[] && t.locks.table == map[]
  {
    var s := After(w, START, before);
    StartIsSafe(w);
    ProtocolSafety.RunKeepsInv(w, START, before);
    RunDescends(w, s, steps);
    ProtocolSafety.RunKeepsInv(w, s, steps);
    var t := After(w, s, steps);
    if forall step | OfSomeRequest(step) :: !Enabled(w, t, step) {
      StuckIsDone(w, t);
    }
  }

  // ----- what the locks guarantee in every run -----

  lemma ReachedIsSound(w: World, steps: seq<Step>)
    requires EngineContract(w) && Possible(w, START, steps)
    ensures var s := After(w, START, steps); Sound(s.locks) && Places(s)
  {
    StartIsSafe(w);
    ProtocolSafety.RunKeepsInv(w, START, steps);
  }

  /** In every run at most one request of a process is between the acquire and the release of a game's lock. */
  lemma RunsExclude(w: World, steps: seq<Step>, a: nat, b: nat)
    requires EngineContract(w) && Possible(w, START, steps)
    requires a in After(w, START, steps).reqs && b in After(w, START, steps).reqs
    ensures var reqs := After(w, START, steps).reqs;
            (reqs[a].process == reqs[b].process && reqs[a].game == reqs[b].game
             && Inside(reqs[a].pc) && Inside(reqs[b].pc)) ==> a == b
  {
    ReachedIsSound(w, steps);
    var s := After(w, START, steps);
    assert PlaceOk(s, a) && PlaceOk(s, b);
    if s.reqs[a].process == s.reqs[b].process && s.reqs[a].game == s.reqs[b].game
       && Inside(s.reqs[a].pc) && Inside(s.reqs[b].pc) {
      MutualExclusion(s.locks, a, b);
    }
  }

  /** The requests of a process between entering and leaving a game's lock. */
  function InLine(s: State, process: nat, game: string): set<nat> {
    set r | r in s.reqs && s.reqs[r].process == process && s.reqs[r].game == game && !s.reqs[r].pc.Arrived?
  }

  /** In every run a process's table holds a game exactly while some request of it is in line for it; all in line
      hold the one entry the table holds, however often it was dropped and made anew, and its count is theirs. */
  lemma RunsKeepTablesExact(w: World, steps: seq<Step>, process: nat, game: string)
    requires EngineContract(w) && Possible(w, START, steps)
    ensures var s := After(w, START, steps);
            var line, name := InLine(s, process, game), LockName(process, game);
            && (name in s.locks.table <==> line != {})
            && (forall r | r in line ::
                  && r in s.locks.clients && name in s.locks.table && s.locks.clients[r].entry == s.locks.table[name]
                  && s.locks.table[name] in s.locks.entries && s.locks.entries[s.locks.table[name]].holders == |line|)
  {
    ReachedIsSound(w, steps);
    var s := After(w, START, steps);
    var line, name := InLine(s, process, game), LockName(process, game);
    forall r ensures r in line <==> r in Registered(s.locks, name) {
      if r in s.reqs { assert PlaceOk(s, r); }
    }
    assert line == Registered(s.locks, name);
    TableIsExact(s.locks, name);
    forall r | r in line
      ensures r in s.locks.clients && name in s.locks.table && s.locks.clients[r].entry == s.locks.table[name]
      ensures s.locks.table[name] in s.locks.entries && s.locks.entries[s.locks.table[name]].holders == |line|
    {
      assert ClientOk(s.locks, r);
      OneEntryPerKey(s.locks, r, r);
    }
  }
}
