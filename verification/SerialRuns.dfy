/** Under one process every run is a sequence: its requests, each served whole, one after the other. */
module SerialRuns {
  import opened Text
  import opened GameStore
  import opened Service
  import opened SaveRestore
  import opened Protocol
  import opened ProtocolSafety
  import opened ProtocolTheorems
  import opened SerialSteps
  import opened SerialAsked
  import opened SerialMatch

  // ----- one process -----

  ghost predicate Single(w: World, s: State, process: nat) {
    Inv(w, s) && OneProcess(s, process) && AllUpToDate(s) && AllChecked(w, s) && AllAsk(w, s)
  }

  lemma StepStaysUpToDate(w: World, s: State, step: Step, process: nat)
    requires EngineContract(w) && Inv(w, s) && OneProcess(s, process) && AllUpToDate(s) && Enabled(w, s, step)
    ensures AllUpToDate(Next(w, s, step))
  {
    var t := Next(w, s, step);
    forall x | x in t.reqs ensures UpToDate(t, t.reqs[x]) {
      NobodyElseArrives(w, s, step, x);
      if x in s.reqs { StepKeepsUpToDate(w, s, step, process, x); }
    }
  }

  lemma StepKeepsSingle(w: World, s: State, step: Step, process: nat)
    requires EngineContract(w) && Single(w, s, process) && Enabled(w, s, step) && ArrivesAt(step, process)
    ensures Single(w, Next(w, s, step), process)
  {
    StepKeepsInv(w, s, step);
    StepKeepsProcess(w, s, step, process);
    StepStaysUpToDate(w, s, step, process);
    StepKeepsChecked(w, s, step);
    StepKeepsAsk(w, s, step, process);
  }

  // ----- what one step of a request comes to -----

  predicate SameAsk(p: Req, q: Req) { p.user == q.user && p.game == q.game && p.asked == q.asked }

  function AskOf(q: Req): Request { On(q.user, q.game, q.asked) }

  ghost predicate Answers(w: World, a: Store, x: Served, q: Req) {
    x.req == AskOf(q) && Decided(q) == Some(Serve(w, a, x.req, x.seed, x.now).1)
  }

  /** Either the matching store stands still and nothing is decided, or it serves what the request asked for and that
      is what the request is answered. */
  ghost predicate Matched(w: World, s: State, t: State, a: Store, xs: seq<Served>, r: nat)
    requires r in s.reqs
  {
    && Matches(t, ServeAll(w, a, xs))
    && if xs == [] then
         if r in t.reqs then SameAsk(s.reqs[r], t.reqs[r]) && Decided(t.reqs[r]) == Decided(s.reqs[r])
         else Decided(s.reqs[r]).Some?
       else
         && |xs| == 1 && r in t.reqs && SameAsk(s.reqs[r], t.reqs[r])
         && Decided(s.reqs[r]).None? && Answers(w, a, xs[0], t.reqs[r])
  }

  lemma ServeOne(w: World, a: Store, x: Served)
    ensures ServeAll(w, a, []) == a
    ensures ServeAll(w, a, [x]) == Serve(w, a, x.req, x.seed, x.now).0
  {
    assert [x][1..] == [];
  }

  lemma StandingSameDue(s: State, t: State, r: nat)
    requires OthersStand(s, t, r) && !Due(s.reqs[r]) && !Due(t.reqs[r])
    ensures SameDue(s, t)
  {
  }

  // The three things a step of a request can come to.

  ghost predicate Silent(s: State, t: State, r: nat) {
    && OthersStand(s, t, r) && t.store == s.store && !Due(s.reqs[r]) && !Due(t.reqs[r])
    && SameAsk(s.reqs[r], t.reqs[r]) && Decided(t.reqs[r]) == Decided(s.reqs[r])
  }

  /** The whole operation took effect. */
  ghost predicate TakesEffect(w: World, s: State, t: State, r: nat, seed: nat, now: int) {
    && OthersStand(s, t, r) && Decided(s.reqs[r]).None? && t.reqs[r].pc.AtUnlock? && SameAsk(s.reqs[r], t.reqs[r])
    && var q := s.reqs[r];
       ServeOp(w, s.store, q.user, q.game, q.asked, seed, now) == (t.store, t.reqs[r].pc.reply)
  }

  /** The operation was decided, its session still to be written. */
  ghost predicate BecomesDue(w: World, s: State, t: State, r: nat, seed: nat, now: int) {
    && OthersStand(s, t, r) && Decided(s.reqs[r]).None? && Due(t.reqs[r]) && SameAsk(s.reqs[r], t.reqs[r])
    && s.reqs[r].game in s.store.sessions && t.store.sessions == s.store.sessions
    && var q := s.reqs[r];
       var (served, reply) := ServeOp(w, s.store, q.user, q.game, q.asked, seed, now);
       && Decided(t.reqs[r]) == Some(reply)
       && served == t.store.(sessions := s.store.sessions[q.game := Written(t.reqs[r])],
                             updated := s.store.updated[q.game := now])
  }

  /** Nobody else has a session of this game to write, and the matching store shows the game as it is. */
  ghost predicate Ready(w: World, s: State, a: Store, r: nat) {
    && WellFormed(w.fold, s.store) && Matches(s, a) && r in s.reqs && s.reqs[r].user != ""
    && !DueOn(s, s.reqs[r].game)
  }

  lemma SilentIsMatched(w: World, s: State, t: State, a: Store, r: nat)
    requires Matches(s, a) && Silent(s, t, r)
    ensures Matched(w, s, t, a, [], r)
  {
    StandingSameDue(s, t, r);
    SilentMatches(s, t, a);
  }

  /** The matching store serves the request as the store did. */
  lemma ServesToo(w: World, s: State, a: Store, r: nat, seed: nat, now: int) returns (x: Served, b: Store)
    requires Ready(w, s, a, r)
    ensures x.req == AskOf(s.reqs[r]) && x.seed == seed && x.now == now
    ensures ServeAll(w, a, [x]) == b
    ensures var q := s.reqs[r];
            var (served, reply) := ServeOp(w, s.store, q.user, q.game, q.asked, seed, now);
            && Serve(w, a, x.req, x.seed, x.now) == (b, reply)
            && Agree(served, b, q.game) && OnlyOn(s.store, served, q.game) && OnlyOn(a, b, q.game)
  {
    var q := s.reqs[r];
    x := Served(AskOf(q), seed, now);
    b := Serve(w, a, x.req, x.seed, x.now).0;
    MatchingAgree(w, s, a, q.game);
    ServeAlike(w, s.store, a, q.user, q.game, q.asked, seed, now);
    assert Serve(w, a, x.req, seed, now) == ServeOp(w, a, q.user, q.game, q.asked, seed, now);
    ServeOne(w, a, x);
  }

  lemma EffectIsMatched(w: World, s: State, t: State, a: Store, r: nat, seed: nat, now: int) returns (xs: seq<Served>)
    requires Ready(w, s, a, r) && TakesEffect(w, s, t, r, seed, now)
    ensures Matched(w, s, t, a, xs, r)
  {
    var x, b := ServesToo(w, s, a, r, seed, now);
    StandingSameDue(s, t, r);
    ServedMatches(s, t, a, b, s.reqs[r].game);
    xs := [x];
  }

  lemma DueIsMatched(w: World, s: State, t: State, a: Store, r: nat, seed: nat, now: int) returns (xs: seq<Served>)
    requires Ready(w, s, a, r) && BecomesDue(w, s, t, r, seed, now)
    ensures Matched(w, s, t, a, xs, r)
  {
    var q := s.reqs[r];
    var x, b := ServesToo(w, s, a, r, seed, now);
    DecidedMatches(s, t, ServeOp(w, s.store, q.user, q.game, q.asked, seed, now).0, a, b, r);
    xs := [x];
  }

  // ----- which of the three each step comes to -----

  lemma LoadComesTo(w: World, s: State, r: nat)
    requires r in s.reqs && s.reqs[r].pc.AtLoad? && AskOk(w, s.store, s.reqs[r])
    ensures var t := LoadStep(w, s, r); TakesEffect(w, s, t, r, 0, 0) || Silent(s, t, r)
  {
    LoadDecides(w, s, r, 0, 0);
    AskedServes(w, s.store, s.reqs[r], 0, 0);
  }

  lemma TurnComesTo(w: World, s: State, r: nat, seed: nat, now: int)
    requires r in s.reqs && HoldsStored(s, s.reqs[r]) && Checked(w, s.reqs[r]) && AskOk(w, s.store, s.reqs[r])
    requires s.reqs[r].op.PlayOp? || s.reqs[r].op.RestartOp?
    ensures var t := WorkStep(w, s, r, seed, now); TakesEffect(w, s, t, r, seed, now) || Silent(s, t, r)
  {
    TurnDecides(w, s, r, seed, now);
    AskedServes(w, s.store, s.reqs[r], seed, now);
  }

  lemma SaveComesTo(w: World, s: State, r: nat, seed: nat, now: int)
    requires r in s.reqs && HoldsStored(s, s.reqs[r]) && AskOk(w, s.store, s.reqs[r])
    requires s.reqs[r].op.SaveOp? || s.reqs[r].op.RestoreOp?
    ensures var t := WorkStep(w, s, r, seed, now);
            TakesEffect(w, s, t, r, seed, now) || BecomesDue(w, s, t, r, seed, now)
  {
    SaveDecides(w, s, r, seed, now);
    AskedServes(w, s.store, s.reqs[r], seed, now);
  }

  lemma CommitComesTo(w: World, s: State, r: nat, now: int)
    requires r in s.reqs && s.reqs[r].pc.AtCommit? && Checked(w, s.reqs[r]) && UpToDate(s, s.reqs[r])
    requires s.reqs[r].op.PlayOp? || s.reqs[r].op.RestartOp?
    requires s.reqs[r].pc.base.userID == s.reqs[r].user && AskOk(w, s.store, s.reqs[r])
    ensures s.reqs[r].pc.op.CPlayed? || s.reqs[r].pc.op.CRestarted?
    ensures TakesEffect(w, s, CommitStep(s, r, now), r, s.reqs[r].pc.op.seed, now)
  {
    CommitIsServe(w, s, r, now);
    AskedServes(w, s.store, s.reqs[r], s.reqs[r].pc.op.seed, now);
  }

  // ----- every step of a request is matched -----

  lemma ReadyInside(w: World, s: State, process: nat, a: Store, r: nat)
    requires Single(w, s, process) && Matches(s, a) && r in s.reqs && Inside(s.reqs[r].pc) && !Due(s.reqs[r])
    ensures Ready(w, s, a, r) && AskOk(w, s.store, s.reqs[r]) && Checked(w, s.reqs[r]) && UpToDate(s, s.reqs[r])
    ensures ReqOk(w, s.log, s.reqs[r])
    ensures s.reqs[r].pc.AtWork? ==> HoldsStored(s, s.reqs[r])
  {
    NotDueHere(s, process, r);
    assert AskOk(w, s.store, s.reqs[r]) && Checked(w, s.reqs[r]) && UpToDate(s, s.reqs[r]);
    assert ReqOk(w, s.log, s.reqs[r]);
  }

  lemma LoadIsMatched(w: World, s: State, process: nat, r: nat, a: Store) returns (xs: seq<Served>)
    requires Single(w, s, process) && Matches(s, a) && r in s.reqs && s.reqs[r].pc.AtLoad?
    ensures Matched(w, s, LoadStep(w, s, r), a, xs, r)
  {
    var t := LoadStep(w, s, r);
    ReadyInside(w, s, process, a, r);
    LoadComesTo(w, s, r);
    if Silent(s, t, r) {
      SilentIsMatched(w, s, t, a, r);
      xs := [];
    } else {
      xs := EffectIsMatched(w, s, t, a, r, 0, 0);
    }
  }

  lemma WorkIsMatched(w: World, s: State, process: nat, r: nat, seed: nat, now: int, a: Store) returns (xs: seq<Served>)
    requires Single(w, s, process) && Matches(s, a) && r in s.reqs && s.reqs[r].pc.AtWork?
    ensures Matched(w, s, WorkStep(w, s, r, seed, now), a, xs, r)
  {
    var t := WorkStep(w, s, r, seed, now);
    ReadyInside(w, s, process, a, r);
    if s.reqs[r].op.SaveOp? || s.reqs[r].op.RestoreOp? {
      SaveComesTo(w, s, r, seed, now);
    } else {
      TurnComesTo(w, s, r, seed, now);
    }
    if Silent(s, t, r) {
      SilentIsMatched(w, s, t, a, r);
      xs := [];
    } else if TakesEffect(w, s, t, r, seed, now) {
      xs := EffectIsMatched(w, s, t, a, r, seed, now);
    } else {
      xs := DueIsMatched(w, s, t, a, r, seed, now);
    }
  }

  lemma WriteIsMatched(w: World, s: State, a: Store, r: nat, now: int)
    requires Matches(s, a) && r in s.reqs && Due(s.reqs[r]) && ReqOk(w, s.log, s.reqs[r]) && UpToDate(s, s.reqs[r])
    ensures Matched(w, s, CommitStep(s, r, now), a, [], r)
  {
    DueCommits(s, r, now);
    WrittenMatches(s, CommitStep(s, r, now), a, r);
  }

  lemma CommitIsMatched(w: World, s: State, process: nat, r: nat, now: int, a: Store) returns (xs: seq<Served>)
    requires Single(w, s, process) && Matches(s, a) && r in s.reqs && s.reqs[r].pc.AtCommit?
    ensures Matched(w, s, CommitStep(s, r, now), a, xs, r)
  {
    if Due(s.reqs[r]) {
      assert ReqOk(w, s.log, s.reqs[r]) && UpToDate(s, s.reqs[r]);
      WriteIsMatched(w, s, a, r, now);
      xs := [];
    } else {
      ReadyInside(w, s, process, a, r);
      xs := TurnWriteIsMatched(w, s, a, r, now);
    }
  }

  lemma TurnWriteIsMatched(w: World, s: State, a: Store, r: nat, now: int) returns (xs: seq<Served>)
    requires Ready(w, s, a, r) && s.reqs[r].pc.AtCommit? && s.reqs[r].pc.hand.Nothing?
    requires ReqOk(w, s.log, s.reqs[r]) && UpToDate(s, s.reqs[r])
    requires Checked(w, s.reqs[r]) && AskOk(w, s.store, s.reqs[r])
    ensures Matched(w, s, CommitStep(s, r, now), a, xs, r)
  {
    CommitComesTo(w, s, r, now);
    xs := EffectIsMatched(w, s, CommitStep(s, r, now), a, r, s.reqs[r].pc.op.seed, now);
  }
}
