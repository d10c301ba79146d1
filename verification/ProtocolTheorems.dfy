/** What every run of the session protocol guarantees, and what one process adds. */
module ProtocolTheorems {
  import opened Text
  import opened GameStore
  import opened Service
  import opened Locks
  import opened Protocol
  import opened ProtocolSafety

  // ----- any number of processes -----

  lemma StartIsSafe(w: World)
    ensures Inv(w, START)
  {
    forall game: string ensures |Held(EMPTY, game)| <= MAX_SAVES_PER_GAME { assert Held(EMPTY, game) == {}; }
  }

  /** In every interleaving, every stored session is the sequential replay of the operations written to it, in
      the order they were written, and its version is one more than their number; every save is what that
      replay gave at some point of the log; the store is well formed and coherent. */
  lemma EveryRunReplays(w: World, steps: seq<Step>)
    requires EngineContract(w) && Possible(w, START, steps)
    ensures var s := After(w, START, steps);
            && Good(w, s.store)
            && (forall id | id in s.store.sessions ::
                  && StoredIsReplay(w, s, id)
                  && s.store.sessions[id].version == 1 + |s.log[id].ops|)
            && (forall save | save in s.store.saves :: SaveIsReplay(w, s, save))
  {
    StartIsSafe(w);
    RunKeepsInv(w, START, steps);
    var s := After(w, START, steps);
    forall id | id in s.store.sessions
      ensures StoredIsReplay(w, s, id) && s.store.sessions[id].version == 1 + |s.log[id].ops|
    {
      assert StoredIsReplay(w, s, id);
      assert LogOk(s.store.nextID, s.log, id);
      ReplayIdentity(w, s.log[id], |s.log[id].ops|);
    }
  }

  /** In every interleaving, an update that is written replaces exactly the session its request loaded: no
      write is lost under another. */
  lemma NoLostUpdate(w: World, steps: seq<Step>, r: nat, now: int)
    requires EngineContract(w) && Possible(w, START, steps)
    requires Enabled(w, After(w, START, steps), Commit(r, now))
    requires Update(After(w, START, steps).store, After(w, START, steps).reqs[r].pc.next, now).1.Ok?
    ensures var s := After(w, START, steps);
            var q := s.reqs[r];
            q.game in s.store.sessions && s.store.sessions[q.game] == q.pc.base
  {
    StartIsSafe(w);
    RunKeepsInv(w, START, steps);
    CommitReplacesWhatItRead(w, After(w, START, steps), r, now);
  }

  /** A save of another story never turns up: ErrSaveMismatch is unreachable. */
  lemma MismatchIsUnreachable(w: World, steps: seq<Step>, r: nat)
    requires EngineContract(w) && Possible(w, START, steps) && r in After(w, START, steps).reqs
    ensures var pc := After(w, START, steps).reqs[r].pc;
            pc.AtUnlock? || pc.AtExit? ==> pc.reply != Refused(SaveMismatch)
  {
    StartIsSafe(w);
    RunKeepsInv(w, START, steps);
    var s := After(w, START, steps);
    assert ReqOk(w, s.log, s.reqs[r]);
  }

  predicate StepOf(step: Step, r: nat) {
    match step
    case Enter(x) => x == r
    case Lock(x) => x == r
    case LoadIt(x) => x == r
    case Work(x, _, _) => x == r
    case Commit(x, _) => x == r
    case Unlock(x) => x == r
    case Exit(x) => x == r
    case _ => false
  }

  /** A request that is not waiting for its lock can take its next step. */
  lemma CanStep(w: World, s: State, r: nat) returns (step: Step)
    requires Sound(s.locks) && Places(s) && r in s.reqs && !s.reqs[r].pc.Queued?
    ensures StepOf(step, r) && Enabled(w, s, step)
  {
    assert PlaceOk(s, r);
    if !s.reqs[r].pc.Arrived? { assert ClientOk(s.locks, r); }
    match s.reqs[r].pc
    case Arrived => step := Enter(r);
    case AtLoad => step := LoadIt(r);
    case AtWork(_) => step := Work(r, 0, 0);
    case AtCommit(_, _, _, _) => step := Commit(r, 0);
    case AtUnlock(_) => step := Unlock(r);
    case AtExit(_) => step := Exit(r);
  }

  /** While a request remains, it or the one that keeps it waiting can take a step. */
  lemma SomebodyCanStep(w: World, s: State, r: nat) returns (x: nat, step: Step)
    requires Sound(s.locks) && Places(s) && r in s.reqs
    ensures x in s.reqs && s.reqs[x].game == s.reqs[r].game && StepOf(step, x) && Enabled(w, s, step)
  {
    x := r;
    if s.reqs[r].pc.Queued? {
      assert PlaceOk(s, r);
      NoDeadlock(s.locks, r);
      if CanAcquire(s.locks, r) {
        step := Lock(r);
      } else {
        x :| x in s.locks.clients && s.locks.clients[x].lock == s.locks.clients[r].lock && CanRelease(s.locks, x);
        assert PlaceOk(s, x);
        step := CanStep(w, s, x);
      }
    } else {
      step := CanStep(w, s, r);
    }
  }

  /** No run gets stuck: while any request remains, it or the one that keeps it waiting can take a step. When
      none remains, no lock entry is left in any table. */
  lemma NoRunIsStuck(w: World, steps: seq<Step>, r: nat)
    requires EngineContract(w) && Possible(w, START, steps)
    ensures var s := After(w, START, steps);
            && (r in s.reqs ==>
                  exists x: nat, step: Step :: x in s.reqs && s.reqs[x].game == s.reqs[r].game
                                               && StepOf(step, x) && Enabled(w, s, step))
            && (s.reqs == map[] ==> s.locks.table == map[])
  {
    StartIsSafe(w);
    RunKeepsInv(w, START, steps);
    var s := After(w, START, steps);
    TableIsExact(s.locks, LockName(0, ""));
    if r in s.reqs {
      var x, step := SomebodyCanStep(w, s, r);
    }
  }

  // ----- one process -----

  ghost predicate OneProcess(s: State, process: nat) {
    forall r | r in s.reqs :: s.reqs[r].process == process
  }

  predicate ArrivesAt(step: Step, process: nat) { step.Arrive? ==> step.process == process }

  /** What a request loaded is still what is stored. */
  ghost predicate UpToDate(s: State, q: Req) {
    q.pc.AtWork? || q.pc.AtCommit? ==> q.game in s.store.sessions && s.store.sessions[q.game] == q.pc.base
  }

  ghost predicate AllUpToDate(s: State) {
    forall r | r in s.reqs :: UpToDate(s, s.reqs[r])
  }

  /** Two requests inside the lock of one process are working on different games. */
  lemma OneInsidePerGame(s: State, process: nat, a: nat, b: nat)
    requires Sound(s.locks) && Places(s) && OneProcess(s, process) && a in s.reqs && b in s.reqs && a != b
    requires Inside(s.reqs[a].pc) && Inside(s.reqs[b].pc)
    ensures s.reqs[a].game != s.reqs[b].game
  {
    assert PlaceOk(s, a) && PlaceOk(s, b);
    if s.reqs[a].game == s.reqs[b].game {
      MutualExclusion(s.locks, a, b);
    }
  }

  /** Which game a step may touch: the one its request holds the lock of. */
  ghost predicate Touches(s: State, step: Step, game: string) {
    match step
    case LoadIt(r) => r in s.reqs && s.reqs[r].game == game
    case Commit(r, _) => r in s.reqs && s.reqs[r].game == game
    case _ => false
  }

  lemma WorkStays(w: World, s: State, r: nat, seed: nat, now: int)
    requires r in s.reqs && s.reqs[r].pc.AtWork?
    ensures WorkStep(w, s, r, seed, now).store.sessions == s.store.sessions
  {
    var q := s.reqs[r];
    if q.op.SaveOp? { CreateSavePuts(w.fold, s.store, SnapshotOf(q.pc.base, q.op.name), now); }
  }

  lemma OpenStays(w: World, s: State, step: Step, game: string)
    requires WellFormed(w.fold, s.store) && step.Open? && Enabled(w, s, step) && game in s.store.sessions
    ensures var t := Next(w, s, step).store; game in t.sessions && t.sessions[game] == s.store.sessions[game]
  {
    CreateKeepsWellFormed(w.fold, s.store,
                          Opening(step.user, w.stories[step.story], w.start(w.stories[step.story], step.seed).result),
                          step.now);
  }

  lemma LoadStays(w: World, s: State, r: nat, game: string)
    requires r in s.reqs && s.reqs[r].game != game && game in s.store.sessions
    ensures var t := LoadStep(w, s, r).store; game in t.sessions && t.sessions[game] == s.store.sessions[game]
  {
  }

  lemma CommitStays(s: State, r: nat, now: int, game: string)
    requires r in s.reqs && s.reqs[r].pc.AtCommit? && s.reqs[r].pc.next.id != game && game in s.store.sessions
    ensures var t := CommitStep(s, r, now).store; game in t.sessions && t.sessions[game] == s.store.sessions[game]
  {
  }

  lemma LocksStayOut(w: World, s: State, step: Step)
    requires Enabled(w, s, step)
    requires step.DropSave? || step.Arrive? || step.Enter? || step.Lock? || step.Unlock? || step.Exit?
    ensures Next(w, s, step).store.sessions == s.store.sessions
  {
  }

  lemma OtherGamesStay(w: World, s: State, step: Step, game: string)
    requires WellFormed(w.fold, s.store) && Enabled(w, s, step) && !Touches(s, step, game)
    requires step.Commit? ==> ReqOk(w, s.log, s.reqs[step.r])
    requires game in s.store.sessions
    ensures game in Next(w, s, step).store.sessions
    ensures Next(w, s, step).store.sessions[game] == s.store.sessions[game]
  {
    if step.Open? {
      OpenStays(w, s, step, game);
    } else if step.LoadIt? {
      LoadStays(w, s, step.r, game);
    } else if step.Work? {
      WorkStays(w, s, step.r, step.seed, step.now);
    } else if step.Commit? {
      CommitStays(s, step.r, step.now, game);
    } else {
      LocksStayOut(w, s, step);
    }
  }

  lemma LoadUpToDate(w: World, s: State, r: nat)
    requires r in s.reqs && s.reqs[r].pc.AtLoad?
    ensures var t := LoadStep(w, s, r); r in t.reqs && UpToDate(t, t.reqs[r])
  {
  }

  lemma WorkUpToDate(w: World, s: State, r: nat, seed: nat, now: int)
    requires r in s.reqs && s.reqs[r].pc.AtWork? && UpToDate(s, s.reqs[r])
    ensures var t := WorkStep(w, s, r, seed, now); r in t.reqs && UpToDate(t, t.reqs[r])
  {
    if s.reqs[r].op.SaveOp? {
      CreateSavePuts(w.fold, s.store, SnapshotOf(s.reqs[r].pc.base, s.reqs[r].op.name), now);
    }
  }

  /** The stepping request itself: what it now claims to have loaded, it did just load or had already. */
  lemma StepperUpToDate(w: World, s: State, step: Step, r: nat)
    requires StepOf(step, r) && Enabled(w, s, step) && UpToDate(s, s.reqs[r])
    ensures var t := Next(w, s, step); r in t.reqs ==> UpToDate(t, t.reqs[r])
  {
    if step.LoadIt? {
      LoadUpToDate(w, s, r);
    } else if step.Work? {
      WorkUpToDate(w, s, r, step.seed, step.now);
    }
  }

  lemma LoadLeavesOthers(w: World, s: State, r: nat, x: nat)
    requires r in s.reqs && x in s.reqs && x != r
    ensures var t := LoadStep(w, s, r); x in t.reqs && t.reqs[x] == s.reqs[x]
  {
  }

  lemma WorkLeavesOthers(w: World, s: State, r: nat, seed: nat, now: int, x: nat)
    requires r in s.reqs && s.reqs[r].pc.AtWork? && x in s.reqs && x != r
    ensures var t := WorkStep(w, s, r, seed, now); x in t.reqs && t.reqs[x] == s.reqs[x]
  {
  }

  lemma OthersUnmoved(w: World, s: State, step: Step, x: nat)
    requires Enabled(w, s, step) && x in s.reqs && !StepOf(step, x)
    ensures var t := Next(w, s, step); x in t.reqs && t.reqs[x] == s.reqs[x]
  {
    if step.LoadIt? {
      LoadLeavesOthers(w, s, step.r, x);
    } else if step.Work? {
      WorkLeavesOthers(w, s, step.r, step.seed, step.now, x);
    }
  }

  lemma NobodyElseArrives(w: World, s: State, step: Step, x: nat)
    requires Enabled(w, s, step) && x in Next(w, s, step).reqs
    ensures x in s.reqs || (step.Arrive? && step.r == x)
  {
  }

  lemma StepKeepsUpToDate(w: World, s: State, step: Step, process: nat, x: nat)
    requires EngineContract(w) && Inv(w, s) && OneProcess(s, process) && AllUpToDate(s) && Enabled(w, s, step)
    requires x in Next(w, s, step).reqs && x in s.reqs
    ensures UpToDate(Next(w, s, step), Next(w, s, step).reqs[x])
  {
    assert UpToDate(s, s.reqs[x]);
    if StepOf(step, x) {
      StepperUpToDate(w, s, step, x);
    } else {
      OthersUnmoved(w, s, step, x);
      if s.reqs[x].pc.AtWork? || s.reqs[x].pc.AtCommit? {
        if Touches(s, step, s.reqs[x].game) {
          OneInsidePerGame(s, process, step.r, x);
        }
        assert step.Commit? ==> ReqOk(w, s.log, s.reqs[step.r]);
        OtherGamesStay(w, s, step, s.reqs[x].game);
      }
    }
  }

  lemma StepKeepsProcess(w: World, s: State, step: Step, process: nat)
    requires OneProcess(s, process) && Enabled(w, s, step) && ArrivesAt(step, process)
    ensures OneProcess(Next(w, s, step), process)
  {
  }

  lemma {:induction false} RunKeepsUpToDate(w: World, s: State, steps: seq<Step>, process: nat)
    requires EngineContract(w) && Inv(w, s) && OneProcess(s, process) && AllUpToDate(s)
    requires Possible(w, s, steps) && forall step | step in steps :: ArrivesAt(step, process)
    ensures var t := After(w, s, steps); Inv(w, t) && OneProcess(t, process) && AllUpToDate(t)
    decreases |steps|
  {
    if steps != [] {
      var t := Next(w, s, steps[0]);
      StepKeepsInv(w, s, steps[0]);
      StepKeepsProcess(w, s, steps[0], process);
      forall x | x in t.reqs ensures UpToDate(t, t.reqs[x]) {
        NobodyElseArrives(w, s, steps[0], x);
        if x in s.reqs { StepKeepsUpToDate(w, s, steps[0], process, x); }
      }
      assert forall step | step in steps[1..] :: step in steps;
      RunKeepsUpToDate(w, t, steps[1..], process);
    }
  }

  lemma ReachedUpToDate(w: World, steps: seq<Step>, process: nat, r: nat)
    requires EngineContract(w) && Possible(w, START, steps)
    requires forall step | step in steps :: ArrivesAt(step, process)
    requires r in After(w, START, steps).reqs
    ensures var s := After(w, START, steps); ReqOk(w, s.log, s.reqs[r]) && UpToDate(s, s.reqs[r])
  {
    StartIsSafe(w);
    RunKeepsUpToDate(w, START, steps, process);
  }

  lemma UpToDateCommits(w: World, s: State, q: Req, now: int)
    requires q.pc.AtCommit? && ReqOk(w, s.log, q) && UpToDate(s, q)
    ensures Update(s.store, q.pc.next, now).1.Ok?
    ensures q.game in s.store.sessions && s.store.sessions[q.game] == q.pc.base
  {
  }

  /** When one process serves all requests, no update that follows a successful load is refused: every turn
      whose engine run succeeds is written, and none is lost. */
  lemma OneProcessNeverConflicts(w: World, steps: seq<Step>, process: nat, r: nat, now: int)
    requires EngineContract(w) && Possible(w, START, steps)
    requires forall step | step in steps :: ArrivesAt(step, process)
    requires Enabled(w, After(w, START, steps), Commit(r, now))
    ensures var s := After(w, START, steps);
            Update(s.store, s.reqs[r].pc.next, now).1.Ok?
            && s.reqs[r].game in s.store.sessions && s.store.sessions[s.reqs[r].game] == s.reqs[r].pc.base
  {
    var s := After(w, START, steps);
    ReachedUpToDate(w, steps, process, r);
    UpToDateCommits(w, s, s.reqs[r], now);
  }

  // ----- turns are atomic -----

  /** A turn or a restart on its way to the store has passed its checks and carries the engine's answer. */
  ghost predicate Checked(w: World, q: Req) {
    match q.pc
    case AtWork(base) =>
      && (q.op.PlayOp? ==> !base.halted && InLibrary(w, base.storyKey))
      && (q.op.RestartOp? ==> InLibrary(w, base.storyKey))
    case AtCommit(base, next, op, hand) =>
      && (q.op.PlayOp? ==> !base.halted && InLibrary(w, base.storyKey) && hand.Nothing?
                           && op.CPlayed? && TurnPc(w, base, q.op, op.seed) == q.pc)
      && (q.op.RestartOp? ==> InLibrary(w, base.storyKey) && hand.Nothing?
                              && op.CRestarted? && TurnPc(w, base, q.op, op.seed) == q.pc)
    case _ => true
  }

  ghost predicate AllChecked(w: World, s: State) { forall r | r in s.reqs :: Checked(w, s.reqs[r]) }

  lemma LoadChecked(w: World, s: State, r: nat)
    requires r in s.reqs && s.reqs[r].pc.AtLoad?
    ensures var t := LoadStep(w, s, r); r in t.reqs && Checked(w, t.reqs[r])
  {
  }

  lemma WorkChecked(w: World, s: State, r: nat, seed: nat, now: int)
    requires r in s.reqs && s.reqs[r].pc.AtWork? && Checked(w, s.reqs[r])
    ensures var t := WorkStep(w, s, r, seed, now); r in t.reqs && Checked(w, t.reqs[r])
  {
  }

  lemma StepperChecked(w: World, s: State, step: Step, r: nat)
    requires StepOf(step, r) && Enabled(w, s, step) && Checked(w, s.reqs[r])
    ensures var t := Next(w, s, step); r in t.reqs ==> Checked(w, t.reqs[r])
  {
    if step.LoadIt? {
      LoadChecked(w, s, r);
    } else if step.Work? {
      WorkChecked(w, s, r, step.seed, step.now);
    }
  }

  lemma StepKeepsChecked(w: World, s: State, step: Step)
    requires AllChecked(w, s) && Enabled(w, s, step)
    ensures AllChecked(w, Next(w, s, step))
  {
    var t := Next(w, s, step);
    forall x | x in t.reqs ensures Checked(w, t.reqs[x]) {
      NobodyElseArrives(w, s, step, x);
      if x in s.reqs {
        assert Checked(w, s.reqs[x]);
        if StepOf(step, x) { StepperChecked(w, s, step, x); } else { OthersUnmoved(w, s, step, x); }
      }
    }
  }

  lemma {:induction false} RunKeepsChecked(w: World, s: State, steps: seq<Step>)
    requires AllChecked(w, s) && Possible(w, s, steps)
    ensures AllChecked(w, After(w, s, steps))
    decreases |steps|
  {
    if steps != [] {
      StepKeepsChecked(w, s, steps[0]);
      RunKeepsChecked(w, Next(w, s, steps[0]), steps[1..]);
    }
  }

  /** Under one process a turn or a restart takes effect at one instant: the step that writes it leaves the
      store, and the player, exactly what the whole operation served alone at that moment would have. */
  lemma TurnsAreAtomic(w: World, steps: seq<Step>, process: nat, r: nat, now: int)
    requires EngineContract(w) && Possible(w, START, steps)
    requires forall step | step in steps :: ArrivesAt(step, process)
    requires Enabled(w, After(w, START, steps), Commit(r, now))
    requires After(w, START, steps).reqs[r].op.PlayOp? || After(w, START, steps).reqs[r].op.RestartOp?
    ensures var s := After(w, START, steps);
            var t := Next(w, s, Commit(r, now));
            var q := s.reqs[r];
            (q.pc.op.CPlayed? || q.pc.op.CRestarted?)
            && ServeOp(w, s.store, q.user, q.game, q.op, q.pc.op.seed, now) == (t.store, t.reqs[r].pc.reply)
  {
    var s := After(w, START, steps);
    ReachedUpToDate(w, steps, process, r);
    ReachedChecked(w, steps, r);
    BaseIsOwn(w, s.log, s.reqs[r]);
    CommitIsServe(w, s, r, now);
  }

  lemma ReachedChecked(w: World, steps: seq<Step>, r: nat)
    requires Possible(w, START, steps) && r in After(w, START, steps).reqs
    ensures Checked(w, After(w, START, steps).reqs[r])
  {
    RunKeepsChecked(w, START, steps);
  }

  lemma BaseIsOwn(w: World, log: map<string, History>, q: Req)
    requires ReqOk(w, log, q) && q.pc.AtCommit?
    ensures q.pc.base.userID == q.user && q.pc.base.id == q.game
  {
  }

  lemma CommitIsServe(w: World, s: State, r: nat, now: int)
    requires r in s.reqs && s.reqs[r].pc.AtCommit? && Checked(w, s.reqs[r]) && UpToDate(s, s.reqs[r])
    requires s.reqs[r].op.PlayOp? || s.reqs[r].op.RestartOp?
    requires s.reqs[r].pc.base.userID == s.reqs[r].user
    ensures var t := CommitStep(s, r, now);
            ServeOp(w, s.store, s.reqs[r].user, s.reqs[r].game, s.reqs[r].op, s.reqs[r].pc.op.seed, now)
            == (t.store, t.reqs[r].pc.reply)
  {
  }

  /** What the request hands back after this step, and what it goes on to write, is what the whole operation
      served alone at this moment would have. */
  ghost predicate DecidedHere(w: World, s: State, q: Req, t: State, pc: Pc, seed: nat, now: int) {
    var (served, reply) := ServeOp(w, s.store, q.user, q.game, q.op, seed, now);
    && (pc.AtUnlock? ==> reply == pc.reply && served == s.store && t.store == s.store)
    && (pc.AtCommit? ==>
          var written := pc.next.(version := pc.next.version + 1);
          && t.store.sessions == s.store.sessions
          && served == t.store.(sessions := s.store.sessions[q.game := written],
                                updated := s.store.updated[q.game := now])
          && reply == CommitReply(pc.hand, pc.next, Ok(written)))
  }

  /** A restore or a save does more than write its session, and a save may be dropped meanwhile: its instant is
      the one where it reads, or writes, the save. Under one process it is decided there. */
  lemma SavesAndRestoresAreAtomic(w: World, steps: seq<Step>, process: nat, r: nat, seed: nat, now: int)
    requires EngineContract(w) && Possible(w, START, steps)
    requires forall step | step in steps :: ArrivesAt(step, process)
    requires Enabled(w, After(w, START, steps), Work(r, seed, now))
    requires After(w, START, steps).reqs[r].op.RestoreOp? || After(w, START, steps).reqs[r].op.SaveOp?
    ensures var s := After(w, START, steps);
            var t := Next(w, s, Work(r, seed, now));
            DecidedHere(w, s, s.reqs[r], t, t.reqs[r].pc, seed, now)
  {
    var s := After(w, START, steps);
    StartIsSafe(w);
    RunKeepsUpToDate(w, START, steps, process);
    HoldsAtWork(w, s, r);
    WorkIsServe(w, s, r, seed, now);
  }

  /** The request holds what is stored. */
  ghost predicate HoldsStored(s: State, q: Req) {
    && q.pc.AtWork? && q.game in s.store.sessions && s.store.sessions[q.game] == q.pc.base
    && q.pc.base.id == q.game && q.pc.base.userID == q.user
    && (q.op.SaveOp? ==> q.pc.base.state != [])
  }

  lemma HoldsAtWork(w: World, s: State, r: nat)
    requires Requests(w, s) && AllUpToDate(s) && r in s.reqs && s.reqs[r].pc.AtWork?
    ensures HoldsStored(s, s.reqs[r])
  {
    assert ReqOk(w, s.log, s.reqs[r]) && UpToDate(s, s.reqs[r]);
  }

  lemma WorkIsServe(w: World, s: State, r: nat, seed: nat, now: int)
    requires r in s.reqs && HoldsStored(s, s.reqs[r])
    requires s.reqs[r].op.RestoreOp? || s.reqs[r].op.SaveOp?
    ensures var t := WorkStep(w, s, r, seed, now);
            DecidedHere(w, s, s.reqs[r], t, t.reqs[r].pc, seed, now)
  {
    var q := s.reqs[r];
    if q.op.RestoreOp? {
      RestoreWorkIsServe(w, s, q, seed, now);
    } else {
      SaveWorkIsServe(w, s, q, seed, now);
    }
  }

  lemma RestoreWorkIsServe(w: World, s: State, q: Req, seed: nat, now: int)
    requires HoldsStored(s, q) && q.op.RestoreOp?
    ensures DecidedHere(w, s, q, s, RestorePc(w, s, q, q.pc.base), seed, now)
  {
  }

  lemma SaveWorkIsServe(w: World, s: State, q: Req, seed: nat, now: int)
    requires HoldsStored(s, q) && q.op.SaveOp?
    ensures DecidedHere(w, s, q, SavedState(w, s, q.pc.base, q.op.name, now),
                        SavePc(w, s, q.pc.base, q.op.name, q.op.echo, now), seed, now)
  {
    CreateSavePuts(w.fold, s.store, SnapshotOf(q.pc.base, q.op.name), now);
  }
}
