/** Restoring under concurrency, told from a game's log: in every interleaving a restore takes the game back to
    the point its save was taken at, and from equal entries on it plays out equally. */
module RestoredRuns {
  import opened Text
  import opened GameStore
  import opened Service
  import opened SaveRestore
  import opened Protocol
  import opened ProtocolSafety
  import opened ProtocolTheorems

  // ----- what every log satisfies -----

  /** A point of a log that can be played on from. */
  ghost predicate Playable(w: World, h: History, at: nat) { at <= |h.ops| && Replay(w, h, at).state != [] }

  /** Every restore goes back to an earlier point that can be played on from. */
  ghost predicate RestoresOk(w: World, h: History) {
    forall n | 0 <= n < |h.ops| && h.ops[n].CRestored? :: h.ops[n].at <= n && Playable(w, h, h.ops[n].at)
  }

  ghost predicate AllAlive(w: World, h: History) { forall n | 0 <= n <= |h.ops| :: Alive(Replay(w, h, n)) }

  ghost predicate LogFacts(w: World, h: History) { RestoresOk(w, h) && AllAlive(w, h) }

  ghost predicate PendingOk(w: World, log: map<string, History>, q: Req) {
    q.pc.AtCommit? && q.pc.op.CRestored? ==> q.game in log && Playable(w, log[q.game], q.pc.op.at)
  }

  ghost predicate Facts(w: World, s: State) {
    && (forall id | id in s.log :: LogFacts(w, s.log[id]))
    && (forall r | r in s.reqs :: PendingOk(w, s.log, s.reqs[r]))
  }

  lemma PlayableSurvives(w: World, h: History, k: History, at: nat)
    requires Extends(h, k) && Playable(w, h, at)
    ensures Playable(w, k, at)
  {
    ReplayOfPrefix(w, h, k, at);
  }

  lemma ExtendKeepsFacts(w: World, h: History, op: Committed)
    requires LogFacts(w, h) && Alive(ApplyOp(w, h, |h.ops|, op, Replay(w, h, |h.ops|)))
    requires op.CRestored? ==> Playable(w, h, op.at)
    ensures LogFacts(w, h.(ops := h.ops + [op]))
  {
    var k := h.(ops := h.ops + [op]);
    forall n | 0 <= n <= |k.ops| ensures Alive(Replay(w, k, n)) {
      if n <= |h.ops| { ReplayOfPrefix(w, h, k, n); } else { CommitExtendsReplay(w, h, op); }
    }
    forall n | 0 <= n < |k.ops| && k.ops[n].CRestored? ensures k.ops[n].at <= n && Playable(w, k, k.ops[n].at) {
      if n < |h.ops| { assert k.ops[n] == h.ops[n]; }
      PlayableSurvives(w, h, k, k.ops[n].at);
    }
  }

  lemma OpenedFacts(w: World, opening: Session)
    requires Alive(opening)
    ensures LogFacts(w, History(opening, []))
  {
  }

  // ----- every step keeps it -----

  /** What a step does to the logs: nothing, one new game, or one more entry of the committing request's game. */
  ghost predicate LogMoves(w: World, s: State, step: Step, t: State) {
    || t.log == s.log
    || (step.Open? && exists id: string, opening: Session ::
          id !in s.log && Alive(opening) && t.log == s.log[id := History(opening, [])])
    || (step.Commit? && step.r in s.reqs && s.reqs[step.r].pc.AtCommit? && s.reqs[step.r].game in s.log
        && t.log == Logged(s.log, s.reqs[step.r].game, s.reqs[step.r].pc.op, true)
        && var h := s.log[s.reqs[step.r].game];
           Alive(ApplyOp(w, h, |h.ops|, s.reqs[step.r].pc.op, Replay(w, h, |h.ops|))))
  }

  lemma OpenMovesLogs(w: World, s: State, step: Step)
    requires EngineContract(w) && Logs(w, s) && step.Open? && Enabled(w, s, step)
    ensures LogMoves(w, s, step, Next(w, s, step))
  {
    var key := w.stories[step.story];
    assert Resumable(w.start(key, step.seed));
    var id := Format(s.store.nextID + 1);
    FreshID(s.store.nextID);
    assert forall i | i in s.log :: LogOk(s.store.nextID, s.log, i);
    var opening := Opening(step.user, key, w.start(key, step.seed).result).(id := id, version := 1);
    assert id !in s.log && Next(w, s, step).log == s.log[id := History(opening, [])];
  }

  lemma CommitMovesLogs(w: World, s: State, step: Step)
    requires Inv(w, s) && step.Commit? && Enabled(w, s, step)
    ensures LogMoves(w, s, step, Next(w, s, step))
  {
    var q := s.reqs[step.r];
    if Update(s.store, q.pc.next, step.now).1.Ok? {
      CommitReplacesWhatItRead(w, s, step.r, step.now);
      assert StoredIsReplay(w, s, q.game);
      assert ReqOk(w, s.log, q);
    }
  }

  lemma OtherStepsKeepLogs(w: World, s: State, step: Step)
    requires Enabled(w, s, step) && !step.Open? && !step.Commit?
    ensures Next(w, s, step).log == s.log
  {
  }

  lemma LogsKeepFacts(w: World, s: State, step: Step, t: State)
    requires Facts(w, s) && LogMoves(w, s, step, t)
    ensures (forall id | id in t.log :: LogFacts(w, t.log[id])) && Grows(s.log, t.log)
  {
    if t.log != s.log {
      if step.Open? {
        var id: string, opening: Session :|
          id !in s.log && Alive(opening) && t.log == s.log[id := History(opening, [])];
        OpenedFacts(w, opening);
      } else {
        var q := s.reqs[step.r];
        assert PendingOk(w, s.log, q);
        ExtendKeepsFacts(w, s.log[q.game], q.pc.op);
      }
    }
  }

  /** The only step that makes a restore ready to write is the one that read its save. */
  lemma StepperPending(w: World, s: State, step: Step, r: nat)
    requires Coherent(s.store) && Logs(w, s) && StepOf(step, r) && Enabled(w, s, step) && PendingOk(w, s.log, s.reqs[r])
    requires s.reqs[r].pc.AtWork? ==> ReqOk(w, s.log, s.reqs[r])
    ensures r in Next(w, s, step).reqs ==> PendingOk(w, s.log, Next(w, s, step).reqs[r])
  {
    var q := s.reqs[r];
    if step.Work? && q.op.RestoreOp? && LoadSave(s.store, q.user, q.game, q.op.save).Ok? {
      assert SaveIsReplay(w, s, q.op.save);
    }
  }

  lemma PendingSurvives(w: World, log: map<string, History>, log': map<string, History>, q: Req)
    requires PendingOk(w, log, q) && Grows(log, log')
    ensures PendingOk(w, log', q)
  {
    if q.pc.AtCommit? && q.pc.op.CRestored? { PlayableSurvives(w, log[q.game], log'[q.game], q.pc.op.at); }
  }

  lemma StepKeepsFacts(w: World, s: State, step: Step)
    requires EngineContract(w) && Inv(w, s) && Facts(w, s) && Enabled(w, s, step)
    ensures Facts(w, Next(w, s, step))
  {
    var t := Next(w, s, step);
    if step.Open? {
      OpenMovesLogs(w, s, step);
    } else if step.Commit? {
      CommitMovesLogs(w, s, step);
    } else {
      OtherStepsKeepLogs(w, s, step);
    }
    LogsKeepFacts(w, s, step, t);
    forall x | x in t.reqs ensures PendingOk(w, t.log, t.reqs[x]) { StepKeepsPending(w, s, step, x); }
  }

  lemma StepKeepsPending(w: World, s: State, step: Step, x: nat)
    requires Coherent(s.store) && Logs(w, s) && Requests(w, s) && Facts(w, s) && Enabled(w, s, step)
    requires x in Next(w, s, step).reqs && Grows(s.log, Next(w, s, step).log)
    ensures PendingOk(w, Next(w, s, step).log, Next(w, s, step).reqs[x])
  {
    var t := Next(w, s, step);
    NobodyElseArrives(w, s, step, x);
    if x in s.reqs {
      assert PendingOk(w, s.log, s.reqs[x]) && ReqOk(w, s.log, s.reqs[x]);
      if StepOf(step, x) { StepperPending(w, s, step, x); } else { OthersUnmoved(w, s, step, x); }
      PendingSurvives(w, s.log, t.log, t.reqs[x]);
    }
  }

  lemma {:induction false} RunKeepsFacts(w: World, s: State, steps: seq<Step>)
    requires EngineContract(w) && Inv(w, s) && Facts(w, s) && Possible(w, s, steps)
    ensures Inv(w, After(w, s, steps)) && Facts(w, After(w, s, steps))
    decreases |steps|
  {
    if steps != [] {
      StepKeepsInv(w, s, steps[0]);
      StepKeepsFacts(w, s, steps[0]);
      RunKeepsFacts(w, Next(w, s, steps[0]), steps[1..]);
    }
  }

  // ----- equal entries from equal cores -----

  /** What can be played on depends on the core alone, and so does what an entry makes of it. */
  lemma SameEntry(w: World, h: History, a: nat, b: nat)
    requires a < |h.ops| && b < |h.ops| && h.ops[a] == h.ops[b] && RestoresOk(w, h)
    requires CoreOf(Replay(w, h, a)) == CoreOf(Replay(w, h, b))
    ensures CoreOf(Replay(w, h, a + 1)) == CoreOf(Replay(w, h, b + 1))
  {
  }

  /** The `k` entries from `a` on are those from `b` on. */
  predicate SameOps<O(==)>(ops: seq<O>, a: nat, b: nat, k: nat) {
    a + k <= |ops| && b + k <= |ops| && forall i | a <= i < a + k :: ops[i] == ops[b + (i - a)]
  }

  /** What follows a point depends on the core there and the entry alone. */
  ghost predicate Agree<O, C>(ops: seq<O>, cores: seq<C>, i: nat, j: nat)
    requires |cores| == |ops| + 1 && i < |ops| && j < |ops|
  {
    ops[i] == ops[j] && cores[i] == cores[j] ==> cores[i + 1] == cores[j + 1]
  }

  lemma {:induction false} SameStretch<O, C>(ops: seq<O>, cores: seq<C>, a: nat, b: nat, k: nat)
    requires |cores| == |ops| + 1 && SameOps(ops, a, b, k) && cores[a] == cores[b]
    requires forall i: nat, j: nat | i < |ops| && j < |ops| :: Agree(ops, cores, i, j)
    ensures cores[a + k] == cores[b + k]
    decreases k
  {
    if k > 0 {
      assert Agree(ops, cores, a, b);
      SameStretch(ops, cores, a + 1, b + 1, k - 1);
    }
  }

  function Cores(w: World, h: History): (cores: seq<Core>)
    ensures |cores| == |h.ops| + 1
    ensures forall n | 0 <= n <= |h.ops| :: cores[n] == CoreOf(Replay(w, h, n))
  {
    seq(|h.ops| + 1, n requires 0 <= n <= |h.ops| => CoreOf(Replay(w, h, n)))
  }

  lemma RestoredCore(w: World, h: History, n: nat)
    requires LogFacts(w, h) && n < |h.ops| && h.ops[n].CRestored?
    ensures h.ops[n].at <= n && CoreOf(Replay(w, h, n + 1)) == CoreOf(Replay(w, h, h.ops[n].at))
    ensures !Replay(w, h, n + 1).halted && Replay(w, h, n + 1).state != []
  {
    var at := h.ops[n].at;
    assert Alive(Replay(w, h, at)) && Playable(w, h, at);
    ReplayIdentity(w, h, n);
    ReplayIdentity(w, h, at);
  }

  lemma ReachedFacts(w: World, steps: seq<Step>, id: string)
    requires EngineContract(w) && Possible(w, START, steps) && id in After(w, START, steps).log
    ensures LogFacts(w, After(w, START, steps).log[id])
  {
    StartIsSafe(w);
    RunKeepsFacts(w, START, steps);
  }

  lemma PlaysOnTheSame(w: World, h: History, a: nat, b: nat, k: nat)
    requires RestoresOk(w, h) && SameOps(h.ops, a, b, k) && CoreOf(Replay(w, h, a)) == CoreOf(Replay(w, h, b))
    ensures CoreOf(Replay(w, h, a + k)) == CoreOf(Replay(w, h, b + k))
  {
    var ops, cores := h.ops, Cores(w, h);
    forall i: nat, j: nat | i < |ops| && j < |ops| ensures Agree(ops, cores, i, j) {
      if ops[i] == ops[j] && cores[i] == cores[j] { SameEntry(w, h, i, j); }
    }
    SameStretch(ops, cores, a, b, k);
  }

  /** After the restore at `n` the game is as it was at the point its save was taken, un-halted. */
  ghost predicate GoesBack(w: World, h: History, n: nat)
    requires n < |h.ops| && h.ops[n].CRestored?
  {
    && h.ops[n].at <= n && CoreOf(Replay(w, h, n + 1)) == CoreOf(Replay(w, h, h.ops[n].at))
    && !Replay(w, h, n + 1).halted && Replay(w, h, n + 1).state != []
  }

  /** And it plays on the same for as long as the entries are the same. */
  ghost predicate PlaysOn(w: World, h: History, n: nat, at: nat, k: nat) {
    SameOps(h.ops, n, at, k) ==> CoreOf(Replay(w, h, n + k)) == CoreOf(Replay(w, h, at + k))
  }

  lemma RestoreGoesBack(w: World, h: History, n: nat)
    requires LogFacts(w, h) && n < |h.ops| && h.ops[n].CRestored?
    ensures GoesBack(w, h, n)
  {
    RestoredCore(w, h, n);
  }

  lemma EqualCoresPlayOn(w: World, h: History, m: nat, at: nat, k: nat)
    requires RestoresOk(w, h) && m <= |h.ops| && at <= |h.ops| && CoreOf(Replay(w, h, m)) == CoreOf(Replay(w, h, at))
    ensures PlaysOn(w, h, m, at, k)
  {
    if SameOps(h.ops, m, at, k) { PlaysOnTheSame(w, h, m, at, k); }
  }

  lemma RestoreReplays(w: World, h: History, n: nat, k: nat)
    requires LogFacts(w, h) && n < |h.ops| && h.ops[n].CRestored?
    ensures GoesBack(w, h, n) && PlaysOn(w, h, n + 1, h.ops[n].at, k)
  {
    RestoreGoesBack(w, h, n);
    EqualCoresPlayOn(w, h, n + 1, h.ops[n].at, k);
  }

  /** In every interleaving of any number of processes: when a game's log holds a restore of a save taken at point
      `at`, the game after it has the State, Status, Turn and Halted it had at that point, un-halted; and as long as
      the entries that follow are those that followed the save, so it stays. */
  lemma RestoresReplayInEveryRun(w: World, steps: seq<Step>, id: string, n: nat, k: nat)
    requires EngineContract(w) && Possible(w, START, steps) && id in After(w, START, steps).log
    requires n < |After(w, START, steps).log[id].ops| && After(w, START, steps).log[id].ops[n].CRestored?
    ensures var h := After(w, START, steps).log[id]; GoesBack(w, h, n) && PlaysOn(w, h, n + 1, h.ops[n].at, k)
  {
    ReachedFacts(w, steps, id);
    RestoreReplays(w, After(w, START, steps).log[id], n, k);
  }
}
