/** A restore by name looks its save up in one step and reads it in a later one. Under one process nothing that
    happens between the two can tell: it is still the restore that was asked for. */
module SerialAsked {
  import opened GameStore
  import opened Service
  import opened Locks
  import opened Protocol
  import opened ProtocolSafety
  import opened ProtocolTheorems

  /** The name asked for still names nothing but the save that was found, and that one as long as it is there. */
  ghost predicate Resolved(w: World, s: Store, game: string, name: string, save: string) {
    && (forall id | id in Named(w.fold, s, game, name) :: id == save)
    && (save in s.saves ==> save in Named(w.fold, s, game, name))
  }

  ghost predicate Found(w: World, s: Store, q: Req) {
    && q.asked.RestoreNamedOp? && q.op.RestoreOp? && q.op.echo == q.asked.echo
    && !q.pc.Arrived? && !q.pc.Queued? && Issued(q.op.save, s.nextSave)
    && (q.pc.AtLoad? || q.pc.AtWork? ==> Resolved(w, s, q.game, q.asked.name, q.op.save))
  }

  ghost predicate AskOk(w: World, s: Store, q: Req) {
    q.user != "" && !q.asked.DeleteSaveOp? && (q.asked == q.op || Found(w, s, q))
  }

  ghost predicate AllAsk(w: World, s: State) { forall r | r in s.reqs :: AskOk(w, s.store, s.reqs[r]) }

  /** What is left of what the request was asked for is what it was asked for. */
  lemma AskedServes(w: World, s: Store, q: Req, seed: nat, now: int)
    requires AskOk(w, s, q) && (q.pc.AtLoad? || q.pc.AtWork? || (q.pc.AtCommit? && !q.op.RestoreOp?))
    ensures ServeOp(w, s, q.user, q.game, q.asked, seed, now) == ServeOp(w, s, q.user, q.game, q.op, seed, now)
  {
    if q.asked != q.op {
      var named := Named(w.fold, s, q.game, q.asked.name);
      if q.op.save in s.saves {
        assert named == {q.op.save};
      } else {
        assert named == {};
      }
    }
  }

  // ----- what other requests do to the saves of a game -----

  /** No save of the game is new or renamed, and no old identifier is used again. */
  ghost predicate Shrinks(s: Store, t: Store, game: string) {
    && s.nextSave <= t.nextSave
    && forall id | id in t.saves && (t.saves[id].gameID == game || Issued(id, s.nextSave)) ::
         id in s.saves && t.saves[id].gameID == s.saves[id].gameID
         && (t.saves[id].gameID == game ==> t.saves[id].name == s.saves[id].name)
  }

  lemma ShrinkKeepsResolved(w: World, s: Store, t: Store, game: string, name: string, save: string)
    requires Shrinks(s, t, game) && Resolved(w, s, game, name, save) && Issued(save, s.nextSave)
    ensures Resolved(w, t, game, name, save)
  {
    forall id | id in Named(w.fold, t, game, name) ensures id == save { assert id in Named(w.fold, s, game, name); }
  }

  lemma PutShrinks(w: World, s: Store, snapshot: Snapshot, now: int, game: string)
    requires snapshot.gameID != game
    ensures Shrinks(s, CreateSave(w.fold, s, snapshot, now).0, game)
  {
    FreshID(s.nextSave);
    CreateSavePuts(w.fold, s, snapshot, now);
  }

  lemma WorkShrinks(w: World, s: State, r: nat, seed: nat, now: int, game: string)
    requires r in s.reqs && s.reqs[r].pc.AtWork? && s.reqs[r].pc.base.id != game
    ensures Shrinks(s.store, WorkStep(w, s, r, seed, now).store, game)
  {
    var q := s.reqs[r];
    if q.op.SaveOp? { PutShrinks(w, s.store, SnapshotOf(q.pc.base, q.op.name), now, game); }
  }

  lemma LoadShrinks(w: World, s: State, r: nat, game: string)
    requires r in s.reqs
    ensures Shrinks(s.store, LoadStep(w, s, r).store, game)
  {
  }

  lemma CommitShrinks(s: State, r: nat, now: int, game: string)
    requires r in s.reqs && s.reqs[r].pc.AtCommit?
    ensures Shrinks(s.store, CommitStep(s, r, now).store, game)
  {
  }

  lemma QuietShrinks(w: World, s: State, step: Step, game: string)
    requires Enabled(w, s, step) && !step.LoadIt? && !step.Work? && !step.Commit?
    ensures Shrinks(s.store, Next(w, s, step).store, game)
  {
  }

  /** A step of a request on another game, or of nobody. */
  lemma StepShrinks(w: World, s: State, step: Step, game: string)
    requires Requests(w, s) && Enabled(w, s, step)
    requires step.Work? ==> s.reqs[step.r].game != game
    ensures Shrinks(s.store, Next(w, s, step).store, game)
  {
    match step
    case LoadIt(r) => LoadShrinks(w, s, r, game);
    case Work(r, seed, now) =>
      assert ReqOk(w, s.log, s.reqs[r]);
      WorkShrinks(w, s, r, seed, now, game);
    case Commit(r, now) => CommitShrinks(s, r, now, game);
    case _ => QuietShrinks(w, s, step, game);
  }

  // ----- every step keeps it -----

  lemma OthersStillAsk(w: World, s: State, step: Step, process: nat, x: nat)
    requires Requests(w, s) && Sound(s.locks) && Places(s) && OneProcess(s, process) && Enabled(w, s, step)
    requires x in s.reqs && !StepOf(step, x) && AskOk(w, s.store, s.reqs[x])
    ensures AskOk(w, Next(w, s, step).store, s.reqs[x])
  {
    var q, t := s.reqs[x], Next(w, s, step);
    if q.asked != q.op {
      if Inside(q.pc) {
        if step.Work? { OneInsidePerGame(s, process, step.r, x); }
        StepShrinks(w, s, step, q.game);
        if q.pc.AtLoad? || q.pc.AtWork? {
          ShrinkKeepsResolved(w, s.store, t.store, q.game, q.asked.name, q.op.save);
        }
      } else {
        CounterGrows(w, s, step);
      }
    }
  }

  lemma CounterGrows(w: World, s: State, step: Step)
    requires Requests(w, s) && Enabled(w, s, step)
    ensures s.store.nextSave <= Next(w, s, step).store.nextSave
  {
    match step
    case Work(r, seed, now) => WorkCounts(w, s, r, seed, now);
    case LoadIt(r) => LoadShrinks(w, s, r, "");
    case Commit(r, now) => CommitShrinks(s, r, now, "");
    case _ => QuietShrinks(w, s, step, "");
  }

  lemma WorkCounts(w: World, s: State, r: nat, seed: nat, now: int)
    requires r in s.reqs && s.reqs[r].pc.AtWork?
    ensures s.store.nextSave <= WorkStep(w, s, r, seed, now).store.nextSave
  {
  }

  /** Looking the name up finds the one save it names. */
  lemma LookUpAsks(w: World, s: State, r: nat)
    requires WellFormed(w.fold, s.store) && r in s.reqs && s.reqs[r].pc.AtLoad? && AskOk(w, s.store, s.reqs[r])
    ensures var t := LoadStep(w, s, r); r in t.reqs && AskOk(w, t.store, t.reqs[r])
  {
    var q := s.reqs[r];
    if q.op.RestoreNamedOp? {
      var f := FindSave(w, s.store, q.user, q.game, q.op.name);
      if f.Ok? {
        AtMostOneNamed(w.fold, s.store, q.game, q.op.name, f.value);
        assert SaveOk(s.store, f.value);
      }
    }
  }

  lemma StepperAsks(w: World, s: State, step: Step, r: nat)
    requires WellFormed(w.fold, s.store) && StepOf(step, r) && Enabled(w, s, step) && AskOk(w, s.store, s.reqs[r])
    ensures var t := Next(w, s, step); r in t.reqs ==> AskOk(w, t.store, t.reqs[r])
  {
    match step
    case LoadIt(_) => LookUpAsks(w, s, r);
    case Work(_, seed, now) => WorkCounts(w, s, r, seed, now);
    case _ =>
  }

  lemma StepKeepsAsk(w: World, s: State, step: Step, process: nat)
    requires Inv(w, s) && OneProcess(s, process) && AllAsk(w, s) && Enabled(w, s, step)
    ensures AllAsk(w, Next(w, s, step))
  {
    var t := Next(w, s, step);
    forall x | x in t.reqs ensures AskOk(w, t.store, t.reqs[x]) {
      NobodyElseArrives(w, s, step, x);
      if x in s.reqs {
        if StepOf(step, x) {
          StepperAsks(w, s, step, x);
        } else {
          OthersUnmoved(w, s, step, x);
          OthersStillAsk(w, s, step, process, x);
        }
      }
    }
  }
}
