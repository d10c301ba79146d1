/** Safety over every interleaving: stored sessions are sequential replays of their logs, the store stays
    good, the locks stay sound. */
module ProtocolSafety {
  import opened Text
  import opened GameStore
  import opened Service
  import opened Locks
  import opened Protocol

  // ----- the invariant -----

  /** A save is the game as it stood after some prefix of its log. */
  predicate SnapshotIs(save: Snapshot, at: Session) {
    save == SnapshotOf(at, save.name).(id := save.id, createdAt := save.createdAt)
  }

  ghost predicate LogOk(nextID: nat, log: map<string, History>, id: string)
    requires id in log
  {
    Issued(id, nextID) && log[id].opening.id == id && log[id].opening.version == 1
  }

  ghost predicate StoredIsReplay(w: World, s: State, id: string)
    requires id in s.store.sessions
  {
    id in s.log && s.store.sessions[id] == Replay(w, s.log[id], |s.log[id].ops|)
  }

  ghost predicate SaveIsReplay(w: World, s: State, save: string)
    requires save in s.store.saves
  {
    var game := s.store.saves[save].gameID;
    && game in s.log && save in s.savedAt && s.savedAt[save] <= |s.log[game].ops|
    && SnapshotIs(s.store.saves[save], Replay(w, s.log[game], s.savedAt[save]))
  }

  /** What a request loaded is the session at the version it carries. */
  ghost predicate BaseOk(w: World, log: map<string, History>, q: Req, base: Session) {
    && q.game in log && 1 <= base.version <= |log[q.game].ops| + 1
    && base == Replay(w, log[q.game], base.version - 1)
    && base.id == q.game && base.userID == q.user && Alive(base)
  }

  /** What a request is about to write carries the version it loaded, and is its operation applied to that
      version unless the game has already moved on. */
  ghost predicate NextOk(w: World, log: map<string, History>, q: Req, base: Session, next: Session, op: Committed)
    requires BaseOk(w, log, q, base)
  {
    && next.id == base.id && next.userID == base.userID && next.storyKey == base.storyKey
    && next.version == base.version && Alive(next)
    && (base.version == |log[q.game].ops| + 1 ==> next == ApplyOp(w, log[q.game], base.version - 1, op, base))
  }

  /** The operations that go on to work on the session they loaded. */
  predicate Works(op: Op) { op.PlayOp? || op.RestartOp? || op.SaveOp? || op.RestoreOp? }

  ghost predicate ReqOk(w: World, log: map<string, History>, q: Req) {
    match q.pc
    case AtWork(base) => BaseOk(w, log, q, base) && Works(q.op) && (q.op.SaveOp? ==> base.state != [])
    case AtCommit(base, next, op, hand) =>
      && BaseOk(w, log, q, base) && NextOk(w, log, q, base, next, op)
      && (hand.Nothing? ==> q.op.PlayOp? || q.op.RestartOp?)
    case AtUnlock(reply) => reply != Refused(SaveMismatch)
    case AtExit(reply) => reply != Refused(SaveMismatch)
    case _ => true
  }

  /** A request's place in the code is its place in the lock. */
  ghost predicate PlaceOk(s: State, r: nat)
    requires r in s.reqs
  {
    var q := s.reqs[r];
    if q.pc.Arrived? then r !in s.locks.clients
    else
      && r in s.locks.clients && s.locks.clients[r].lock == LockName(q.process, q.game)
      && s.locks.clients[r].phase == (if q.pc.Queued? then Waiting else if q.pc.AtExit? then Leaving else Holding)
  }

  ghost predicate Places(s: State) {
    s.locks.clients.Keys <= s.reqs.Keys && forall r | r in s.reqs :: PlaceOk(s, r)
  }

  ghost predicate Logs(w: World, s: State) {
    && (forall id | id in s.log :: LogOk(s.store.nextID, s.log, id))
    && (forall id | id in s.store.sessions :: StoredIsReplay(w, s, id))
    && (forall save | save in s.store.saves :: SaveIsReplay(w, s, save))
  }

  ghost predicate Requests(w: World, s: State) {
    forall r | r in s.reqs :: ReqOk(w, s.log, s.reqs[r])
  }

  ghost predicate Inv(w: World, s: State) {
    Good(w, s.store) && Logs(w, s) && Requests(w, s) && Sound(s.locks) && Places(s)
  }

  // ----- growing logs -----

  ghost predicate Grows(log: map<string, History>, log': map<string, History>) {
    forall id | id in log :: id in log' && Extends(log[id], log'[id])
  }

  lemma BaseSurvives(w: World, log: map<string, History>, log': map<string, History>, q: Req, base: Session)
    requires Grows(log, log') && BaseOk(w, log, q, base)
    ensures BaseOk(w, log', q, base)
  {
    ReplayOfPrefix(w, log[q.game], log'[q.game], base.version - 1);
  }

  lemma ReqSurvives(w: World, log: map<string, History>, log': map<string, History>, q: Req)
    requires Grows(log, log') && ReqOk(w, log, q)
    ensures ReqOk(w, log', q)
  {
    match q.pc
    case AtWork(base) => BaseSurvives(w, log, log', q, base);
    case AtCommit(base, next, op, hand) =>
      BaseSurvives(w, log, log', q, base);
      ApplyOfPrefix(w, log[q.game], log'[q.game], base.version - 1, op, base);
    case _ =>
  }

  lemma RequestsSurvive(w: World, s: State, t: State, r: nat)
    requires Requests(w, s) && Grows(s.log, t.log)
    requires t.reqs.Keys == s.reqs.Keys && (forall x | x in s.reqs && x != r :: t.reqs[x] == s.reqs[x])
    requires r in t.reqs ==> ReqOk(w, t.log, t.reqs[r])
    ensures Requests(w, t)
  {
    forall x | x in t.reqs ensures ReqOk(w, t.log, t.reqs[x]) {
      if x != r {
        ReqSurvives(w, s.log, t.log, s.reqs[x]);
      }
    }
  }

  lemma RequestsStay(w: World, s: State, t: State)
    requires Requests(w, s) && Grows(s.log, t.log) && t.reqs == s.reqs
    ensures Requests(w, t)
  {
    forall x | x in t.reqs ensures ReqOk(w, t.log, t.reqs[x]) {
      ReqSurvives(w, s.log, t.log, s.reqs[x]);
    }
  }

  /** Between the acquire and the release. */
  predicate Inside(pc: Pc) { pc.AtLoad? || pc.AtWork? || pc.AtCommit? || pc.AtUnlock? }

  /** A request that stays inside its lock keeps its place. */
  lemma PlacesStay(s: State, t: State, r: nat)
    requires Places(s) && t.locks == s.locks && t.reqs.Keys == s.reqs.Keys && r in s.reqs
    requires forall x | x in s.reqs && x != r :: t.reqs[x] == s.reqs[x]
    requires t.reqs[r].process == s.reqs[r].process && t.reqs[r].game == s.reqs[r].game
    requires Inside(s.reqs[r].pc) && Inside(t.reqs[r].pc)
    ensures Places(t)
  {
    forall x | x in t.reqs ensures PlaceOk(t, x) { assert PlaceOk(s, x); }
  }

  /** A step inside the lock that writes nothing. */
  lemma MoveKeepsInv(w: World, s: State, r: nat, q: Req)
    requires Inv(w, s) && r in s.reqs && q.process == s.reqs[r].process && q.game == s.reqs[r].game
    requires Inside(s.reqs[r].pc) && Inside(q.pc) && ReqOk(w, s.log, q)
    ensures Inv(w, s.(reqs := s.reqs[r := q]))
  {
    var t := s.(reqs := s.reqs[r := q]);
    LogsUnmoved(w, s, t);
    RequestsSurvive(w, s, t, r);
    PlacesStay(s, t, r);
  }

  lemma LogsUnmoved(w: World, s: State, t: State)
    requires Logs(w, s) && t.store == s.store && t.log == s.log && t.savedAt == s.savedAt
    ensures Logs(w, t)
  {
    forall id | id in t.store.sessions ensures StoredIsReplay(w, t, id) { assert StoredIsReplay(w, s, id); }
    forall save | save in t.store.saves ensures SaveIsReplay(w, t, save) { assert SaveIsReplay(w, s, save); }
  }

  /** Sessions and saves that are still there are unchanged. */
  lemma LogsOfFewer(w: World, s: State, t: State)
    requires Logs(w, s) && t.log == s.log && t.savedAt == s.savedAt && t.store.nextID == s.store.nextID
    requires forall id | id in t.store.sessions ::
               id in s.store.sessions && t.store.sessions[id] == s.store.sessions[id]
    requires forall id | id in t.store.saves :: id in s.store.saves && t.store.saves[id] == s.store.saves[id]
    ensures Logs(w, t)
  {
    forall id | id in t.store.sessions ensures StoredIsReplay(w, t, id) { assert StoredIsReplay(w, s, id); }
    forall save | save in t.store.saves ensures SaveIsReplay(w, t, save) { assert SaveIsReplay(w, s, save); }
  }

  // ----- load -----

  lemma LoadedBase(w: World, s: State, q: Req)
    requires Good(w, s.store) && Logs(w, s) && Load(s.store, q.user, q.game).Ok?
    ensures BaseOk(w, s.log, q, Load(s.store, q.user, q.game).value)
  {
    LoadedIsStored(w, s.store, q.user, q.game);
    assert StoredIsReplay(w, s, q.game);
    assert LogOk(s.store.nextID, s.log, q.game);
    ReplayIdentity(w, s.log[q.game], |s.log[q.game].ops|);
  }

  /** Loading only moves the request. */
  lemma LoadMoves(w: World, s: State, r: nat)
    requires r in s.reqs && s.reqs[r].pc.AtLoad? && !s.reqs[r].op.DeleteOp?
    requires var l := Load(s.store, s.reqs[r].user, s.reqs[r].game); l.Ok? ==> BaseOk(w, s.log, s.reqs[r], l.value)
    ensures var q := LoadStep(w, s, r).reqs[r];
            && LoadStep(w, s, r) == s.(reqs := s.reqs[r := q])
            && q.process == s.reqs[r].process && q.game == s.reqs[r].game && Inside(q.pc) && ReqOk(w, s.log, q)
  {
  }

  lemma LoadKeepsInv(w: World, s: State, r: nat)
    requires Inv(w, s) && r in s.reqs && s.reqs[r].pc.AtLoad? && !s.reqs[r].op.DeleteOp?
    ensures Inv(w, LoadStep(w, s, r))
  {
    var q := s.reqs[r];
    if Load(s.store, q.user, q.game).Ok? { LoadedBase(w, s, q); }
    LoadMoves(w, s, r);
    MoveKeepsInv(w, s, r, LoadStep(w, s, r).reqs[r]);
  }

  lemma DeleteShrinks(s: Store, user: string, game: string)
    ensures var t := Delete(s, user, game).0;
            && t.nextID == s.nextID
            && (forall id | id in t.sessions :: id in s.sessions && t.sessions[id] == s.sessions[id])
            && (forall id | id in t.saves :: id in s.saves && t.saves[id] == s.saves[id])
  {
  }

  lemma DeleteSaveShrinks(s: Store, user: string, game: string, save: string)
    ensures var t := DeleteSave(s, user, game, save).0;
            && t.nextID == s.nextID && t.sessions == s.sessions
            && (forall id | id in t.saves :: id in s.saves && t.saves[id] == s.saves[id])
  {
  }

  lemma DeletedKeepsInv(w: World, s: State, user: string, game: string)
    requires Inv(w, s)
    ensures Inv(w, s.(store := Delete(s.store, user, game).0))
  {
    var t := s.(store := Delete(s.store, user, game).0);
    DeleteKeepsGood(w, s.store, user, game);
    DeleteShrinks(s.store, user, game);
    LogsOfFewer(w, s, t);
    RequestsStay(w, s, t);
    LocksStay(s, t);
  }

  lemma DeleteMoves(w: World, s: State, r: nat)
    requires r in s.reqs && s.reqs[r].pc.AtLoad? && s.reqs[r].op.DeleteOp?
    ensures var t := s.(store := Delete(s.store, s.reqs[r].user, s.reqs[r].game).0);
            var q := LoadStep(w, s, r).reqs[r];
            && LoadStep(w, s, r) == t.(reqs := t.reqs[r := q])
            && q.process == s.reqs[r].process && q.game == s.reqs[r].game && Inside(q.pc) && ReqOk(w, s.log, q)
  {
  }

  lemma DeleteKeepsInv(w: World, s: State, r: nat)
    requires Inv(w, s) && r in s.reqs && s.reqs[r].pc.AtLoad? && s.reqs[r].op.DeleteOp?
    ensures Inv(w, LoadStep(w, s, r))
  {
    DeletedKeepsInv(w, s, s.reqs[r].user, s.reqs[r].game);
    DeleteMoves(w, s, r);
    MoveKeepsInv(w, s.(store := Delete(s.store, s.reqs[r].user, s.reqs[r].game).0), r, LoadStep(w, s, r).reqs[r]);
  }

  lemma LocksStay(s: State, t: State)
    requires Sound(s.locks) && Places(s) && t.locks == s.locks && t.reqs == s.reqs
    ensures Sound(t.locks) && Places(t)
  {
    forall x | x in t.reqs ensures PlaceOk(t, x) { assert PlaceOk(s, x); }
  }

  // ----- work -----

  lemma TurnIsOk(w: World, log: map<string, History>, q: Req, seed: nat)
    requires EngineContract(w) && q.pc.AtWork? && ReqOk(w, log, q) && (q.op.PlayOp? || q.op.RestartOp?)
    ensures ReqOk(w, log, q.(pc := TurnPc(w, q.pc.base, q.op, seed)))
  {
    EngineKeepsAlive(w, q.pc.base, if q.op.PlayOp? then q.op.command else "", seed);
  }

  /** The snapshot a restore reads is the game at the recorded point of its own log. */
  lemma RestoreFollowsLog(w: World, s: State, q: Req, base: Session, save: string, echo: string)
    requires BaseOk(w, s.log, q, base) && save in s.store.saves && SaveIsReplay(w, s, save)
    requires s.store.saves[save].gameID == q.game && s.store.saves[save].state != []
    ensures var c := s.store.saves[save];
            && c.storyKey == base.storyKey
            && NextOk(w, s.log, q, base, Restored(w, base, c, echo), CRestored(s.savedAt[save], c.name, echo))
  {
    ReplayIdentity(w, s.log[q.game], s.savedAt[save]);
    ReplayIdentity(w, s.log[q.game], base.version - 1);
  }

  lemma RestoreIsOk(w: World, s: State, q: Req)
    requires Coherent(s.store) && Logs(w, s) && q.pc.AtWork? && ReqOk(w, s.log, q) && q.op.RestoreOp?
    ensures ReqOk(w, s.log, q.(pc := RestorePc(w, s, q, q.pc.base)))
  {
    if LoadSave(s.store, q.user, q.game, q.op.save).Ok? {
      assert SaveIsReplay(w, s, q.op.save);
      RestoreFollowsLog(w, s, q, q.pc.base, q.op.save, q.op.echo);
    }
  }

  lemma SaveKeepsLogs(w: World, s: State, q: Req, base: Session, name: string, now: int)
    requires Logs(w, s) && BaseOk(w, s.log, q, base)
    ensures Logs(w, SavedState(w, s, base, name, now))
  {
    var c := CreateSave(w.fold, s.store, SnapshotOf(base, name), now).1;
    CreateSavePuts(w.fold, s.store, SnapshotOf(base, name), now);
    var u := SavedState(w, s, base, name, now);
    forall id | id in u.store.sessions ensures StoredIsReplay(w, u, id) { assert StoredIsReplay(w, s, id); }
    forall save | save in u.store.saves ensures SaveIsReplay(w, u, save) {
      if c.Err? || save != c.value.0.id { assert SaveIsReplay(w, s, save); }
    }
  }

  lemma StoryOfBase(w: World, s: State, q: Req, base: Session)
    requires Logs(w, s) && BaseOk(w, s.log, q, base) && q.game in s.store.sessions
    ensures s.store.sessions[q.game].storyKey == base.storyKey
    ensures s.store.sessions[q.game].userID == base.userID
    ensures s.store.sessions[q.game].version == |s.log[q.game].ops| + 1
  {
    assert StoredIsReplay(w, s, q.game);
    assert LogOk(s.store.nextID, s.log, q.game);
    ReplayIdentity(w, s.log[q.game], |s.log[q.game].ops|);
    ReplayIdentity(w, s.log[q.game], base.version - 1);
  }

  lemma SaveStoresGood(w: World, s: State, q: Req, base: Session, name: string, now: int)
    requires Good(w, s.store) && Logs(w, s) && BaseOk(w, s.log, q, base) && base.state != []
    ensures Good(w, SavedState(w, s, base, name, now).store)
  {
    if q.game in s.store.sessions { StoryOfBase(w, s, q, base); }
    CreateSaveKeepsGood(w, s.store, SnapshotOf(base, name), now);
  }

  lemma SaveWritten(w: World, s: State, q: Req, base: Session, name: string, now: int)
    requires Inv(w, s) && BaseOk(w, s.log, q, base) && base.state != []
    ensures Inv(w, SavedState(w, s, base, name, now))
  {
    var t := SavedState(w, s, base, name, now);
    SaveStoresGood(w, s, q, base, name, now);
    SaveKeepsLogs(w, s, q, base, name, now);
    RequestsStay(w, s, t);
    LocksStay(s, t);
  }

  lemma SaveMoves(w: World, s: State, r: nat, seed: nat, now: int)
    requires r in s.reqs && s.reqs[r].pc.AtWork? && s.reqs[r].op.SaveOp? && ReqOk(w, s.log, s.reqs[r])
    ensures var u := SavedState(w, s, s.reqs[r].pc.base, s.reqs[r].op.name, now);
            var q := WorkStep(w, s, r, seed, now).reqs[r];
            && WorkStep(w, s, r, seed, now) == u.(reqs := u.reqs[r := q])
            && q.process == s.reqs[r].process && q.game == s.reqs[r].game && Inside(q.pc) && ReqOk(w, s.log, q)
            && u.reqs == s.reqs && u.log == s.log
  {
  }

  lemma SaveKeepsInv(w: World, s: State, r: nat, seed: nat, now: int)
    requires Inv(w, s) && r in s.reqs && s.reqs[r].pc.AtWork? && s.reqs[r].op.SaveOp?
    requires ReqOk(w, s.log, s.reqs[r])
    ensures Inv(w, WorkStep(w, s, r, seed, now))
  {
    var u := SavedState(w, s, s.reqs[r].pc.base, s.reqs[r].op.name, now);
    SaveWritten(w, s, s.reqs[r], s.reqs[r].pc.base, s.reqs[r].op.name, now);
    SaveMoves(w, s, r, seed, now);
    MoveKeepsInv(w, u, r, WorkStep(w, s, r, seed, now).reqs[r]);
  }

  /** Any other work only moves the request. */
  lemma WorkMoves(w: World, s: State, r: nat, seed: nat, now: int)
    requires EngineContract(w) && Coherent(s.store) && Logs(w, s)
    requires r in s.reqs && s.reqs[r].pc.AtWork? && !s.reqs[r].op.SaveOp? && ReqOk(w, s.log, s.reqs[r])
    ensures var q := WorkStep(w, s, r, seed, now).reqs[r];
            && WorkStep(w, s, r, seed, now) == s.(reqs := s.reqs[r := q])
            && q.process == s.reqs[r].process && q.game == s.reqs[r].game && Inside(q.pc) && ReqOk(w, s.log, q)
  {
    if s.reqs[r].op.RestoreOp? {
      RestoreIsOk(w, s, s.reqs[r]);
    } else {
      TurnIsOk(w, s.log, s.reqs[r], seed);
    }
  }

  lemma WorkKeepsInv(w: World, s: State, r: nat, seed: nat, now: int)
    requires EngineContract(w) && Inv(w, s) && r in s.reqs && s.reqs[r].pc.AtWork?
    ensures Inv(w, WorkStep(w, s, r, seed, now))
  {
    assert ReqOk(w, s.log, s.reqs[r]);
    if s.reqs[r].op.SaveOp? {
      SaveKeepsInv(w, s, r, seed, now);
    } else {
      WorkMoves(w, s, r, seed, now);
      MoveKeepsInv(w, s, r, WorkStep(w, s, r, seed, now).reqs[r]);
    }
  }

  // ----- commit -----

  /** The update that succeeds replaces exactly the session it was computed from, and writes what its
      operation makes of it. */
  lemma CommitReplacesWhatItRead(w: World, s: State, r: nat, now: int)
    requires Inv(w, s) && r in s.reqs && s.reqs[r].pc.AtCommit?
    requires Update(s.store, s.reqs[r].pc.next, now).1.Ok?
    ensures var q := s.reqs[r];
            && q.game in s.store.sessions && s.store.sessions[q.game] == q.pc.base
            && q.game in s.log && |s.log[q.game].ops| == q.pc.base.version - 1
            && q.pc.next.id == q.game
            && q.pc.next == ApplyOp(w, s.log[q.game], q.pc.base.version - 1, q.pc.op, q.pc.base)
  {
    var q := s.reqs[r];
    assert ReqOk(w, s.log, q);
    StoryOfBase(w, s, q, q.pc.base);
    assert StoredIsReplay(w, s, q.game);
  }

  lemma CommitExtendsReplay(w: World, h: History, op: Committed)
    ensures var k := h.(ops := h.ops + [op]);
            var n := |h.ops|;
            Replay(w, k, n + 1)
            == ApplyOp(w, h, n, op, Replay(w, h, n)).(version := Replay(w, h, n).version + 1)
  {
    var k := h.(ops := h.ops + [op]);
    ReplayOfPrefix(w, h, k, |h.ops|);
    ApplyOfPrefix(w, h, k, |h.ops|, op, Replay(w, h, |h.ops|));
  }

  ghost predicate Wrote(w: World, s: State, t: State, game: string, op: Committed)
    requires game in s.store.sessions && game in s.log
  {
    var base := s.store.sessions[game];
    && t.log == Logged(s.log, game, op, true) && t.savedAt == s.savedAt
    && t.store.saves == s.store.saves && t.store.nextID == s.store.nextID
    && t.store.sessions ==
       s.store.sessions[game := ApplyOp(w, s.log[game], |s.log[game].ops|, op, base).(version := base.version + 1)]
  }

  lemma WriteKeepsSave(w: World, s: State, t: State, game: string, op: Committed, save: string)
    requires game in s.store.sessions && game in s.log && Wrote(w, s, t, game, op)
    requires save in s.store.saves && SaveIsReplay(w, s, save)
    ensures SaveIsReplay(w, t, save)
  {
    var held := s.store.saves[save].gameID;
    ReplayOfPrefix(w, s.log[held], t.log[held], s.savedAt[save]);
  }

  lemma WriteKeepsSession(w: World, s: State, t: State, game: string, op: Committed, id: string)
    requires game in s.store.sessions && game in s.log && Wrote(w, s, t, game, op)
    requires id in s.store.sessions && StoredIsReplay(w, s, id)
    ensures StoredIsReplay(w, t, id)
  {
    CommitExtendsReplay(w, s.log[game], op);
  }

  /** Writing `ApplyOp` of the stored session and logging the entry keeps store and log in step. */
  lemma WriteKeepsLogs(w: World, s: State, t: State, game: string, op: Committed)
    requires Logs(w, s) && game in s.store.sessions && game in s.log && Wrote(w, s, t, game, op)
    ensures Logs(w, t) && Grows(s.log, t.log)
  {
    forall id | id in t.log ensures LogOk(t.store.nextID, t.log, id) { assert LogOk(s.store.nextID, s.log, id); }
    forall id | id in t.store.sessions ensures StoredIsReplay(w, t, id) { WriteKeepsSession(w, s, t, game, op, id); }
    forall save | save in t.store.saves ensures SaveIsReplay(w, t, save) { WriteKeepsSave(w, s, t, game, op, save); }
  }

  lemma CommitKeepsGood(w: World, s: State, q: Req, now: int)
    requires Good(w, s.store) && Logs(w, s) && q.pc.AtCommit? && ReqOk(w, s.log, q)
    ensures Good(w, Update(s.store, q.pc.next, now).0)
  {
    if q.game in s.store.sessions { StoryOfBase(w, s, q, q.pc.base); }
    UpdateKeepsGood(w, s.store, q.pc.next, now);
  }

  /** The state after the update, before the request moves on. */
  function WrittenState(s: State, q: Req, now: int): State
    requires q.pc.AtCommit?
  {
    s.(store := Update(s.store, q.pc.next, now).0, log := Logged(s.log, q.game, q.pc.op, true))
  }

  lemma WrittenIsWrote(w: World, s: State, q: Req, now: int)
    requires q.pc.AtCommit? && q.pc.next.id == q.game && q.game in s.store.sessions && q.game in s.log
    requires s.store.sessions[q.game] == q.pc.base && |s.log[q.game].ops| == q.pc.base.version - 1
    requires q.pc.next == ApplyOp(w, s.log[q.game], q.pc.base.version - 1, q.pc.op, q.pc.base)
    requires q.pc.next.version == q.pc.base.version && Update(s.store, q.pc.next, now).1.Ok?
    ensures Wrote(w, s, WrittenState(s, q, now), q.game, q.pc.op)
  {
  }

  lemma WrittenKeepsInv(w: World, s: State, r: nat, now: int)
    requires Inv(w, s) && r in s.reqs && s.reqs[r].pc.AtCommit?
    requires Update(s.store, s.reqs[r].pc.next, now).1.Ok?
    ensures Inv(w, WrittenState(s, s.reqs[r], now))
  {
    var q, t := s.reqs[r], WrittenState(s, s.reqs[r], now);
    assert ReqOk(w, s.log, q);
    CommitReplacesWhatItRead(w, s, r, now);
    WrittenIsWrote(w, s, q, now);
    AssembleWritten(w, s, t, q, now);
  }

  lemma AssembleWritten(w: World, s: State, t: State, q: Req, now: int)
    requires Inv(w, s) && q.pc.AtCommit? && ReqOk(w, s.log, q) && t == WrittenState(s, q, now)
    requires q.game in s.store.sessions && q.game in s.log && Wrote(w, s, t, q.game, q.pc.op)
    ensures Inv(w, t)
  {
    CommitKeepsGood(w, s, q, now);
    WriteKeepsLogs(w, s, t, q.game, q.pc.op);
    RequestsStay(w, s, t);
    LocksStay(s, t);
  }

  lemma CommitMoves(w: World, s: State, r: nat, now: int)
    requires r in s.reqs && s.reqs[r].pc.AtCommit?
    ensures var q := s.reqs[r];
            var (store, u) := Update(s.store, q.pc.next, now);
            var t := if u.Ok? then s.(store := store, log := Logged(s.log, q.game, q.pc.op, true)) else s;
            var q' := CommitStep(s, r, now).reqs[r];
            && CommitStep(s, r, now) == t.(reqs := t.reqs[r := q'])
            && q'.process == q.process && q'.game == q.game && Inside(q'.pc) && ReqOk(w, t.log, q')
  {
  }

  lemma CommitKeepsInv(w: World, s: State, r: nat, now: int)
    requires Inv(w, s) && r in s.reqs && s.reqs[r].pc.AtCommit?
    ensures Inv(w, CommitStep(s, r, now))
  {
    var q := s.reqs[r];
    var (store, u) := Update(s.store, q.pc.next, now);
    CommitMoves(w, s, r, now);
    if u.Ok? {
      var t := s.(store := store, log := Logged(s.log, q.game, q.pc.op, true));
      WrittenKeepsInv(w, s, r, now);
      MoveKeepsInv(w, t, r, CommitStep(s, r, now).reqs[r]);
    } else {
      MoveKeepsInv(w, s, r, CommitStep(s, r, now).reqs[r]);
    }
  }

  // ----- the remaining steps -----

  lemma OpenKeepsLogs(w: World, s: State, t: State, session: Session)
    requires Logs(w, s) && t.savedAt == s.savedAt && t.store.saves == s.store.saves
    requires t.store.nextID == s.store.nextID + 1 && session.id == Format(t.store.nextID) && session.version == 1
    requires t.store.sessions == s.store.sessions[session.id := session]
    requires t.log == s.log[session.id := History(session, [])]
    ensures Logs(w, t) && Grows(s.log, t.log)
  {
    FreshID(s.store.nextID);
    assert forall i | i in s.log :: LogOk(s.store.nextID, s.log, i);
    assert session.id !in s.log;
    forall i | i in t.store.sessions ensures StoredIsReplay(w, t, i) {
      if i != session.id { assert StoredIsReplay(w, s, i); }
    }
    forall save | save in t.store.saves ensures SaveIsReplay(w, t, save) { assert SaveIsReplay(w, s, save); }
  }

  lemma OpenKeepsInv(w: World, s: State, step: Step)
    requires EngineContract(w) && Inv(w, s) && step.Open? && Enabled(w, s, step)
    ensures Inv(w, Next(w, s, step))
  {
    var key := w.stories[step.story];
    assert Resumable(w.start(key, step.seed));
    var session := Opening(step.user, key, w.start(key, step.seed).result);
    var t := Next(w, s, step);
    CreateKeepsGood(w, s.store, session, step.now);
    OpenKeepsLogs(w, s, t, session.(id := Format(s.store.nextID + 1), version := 1));
    RequestsStay(w, s, t);
    LocksStay(s, t);
  }

  lemma DropSaveKeepsInv(w: World, s: State, step: Step)
    requires Inv(w, s) && step.DropSave? && Enabled(w, s, step)
    ensures Inv(w, Next(w, s, step))
  {
    var t := Next(w, s, step);
    DeleteSaveKeepsGood(w, s.store, step.user, step.game, step.save);
    DeleteSaveShrinks(s.store, step.user, step.game, step.save);
    LogsOfFewer(w, s, t);
    RequestsStay(w, s, t);
    LocksStay(s, t);
  }

  lemma LockStepKeepsSound(w: World, s: State, step: Step)
    requires Sound(s.locks) && Enabled(w, s, step)
    requires step.Arrive? || step.Enter? || step.Lock? || step.Unlock? || step.Exit?
    ensures Sound(Next(w, s, step).locks)
  {
    match step
    case Enter(r) => RegisterKeepsSound(s.locks, r, LockName(s.reqs[r].process, s.reqs[r].game));
    case Lock(r) => AcquireKeepsSound(s.locks, r);
    case Unlock(r) => ReleaseKeepsSound(s.locks, r);
    case Exit(r) => LeaveKeepsSound(s.locks, r);
    case _ =>
  }

  lemma LockStepKeepsPlaces(w: World, s: State, step: Step)
    requires Places(s) && Enabled(w, s, step)
    requires step.Arrive? || step.Enter? || step.Lock? || step.Unlock? || step.Exit?
    ensures Places(Next(w, s, step))
  {
    var t := Next(w, s, step);
    var r := step.r;
    assert r in s.reqs ==> PlaceOk(s, r);
    forall x | x in t.reqs ensures PlaceOk(t, x) { if x != r { assert PlaceOk(s, x); } }
  }

  lemma LockStepKeepsRequests(w: World, s: State, step: Step)
    requires Requests(w, s) && Enabled(w, s, step)
    requires step.Arrive? || step.Enter? || step.Lock? || step.Unlock? || step.Exit?
    ensures var t := Next(w, s, step);
            Requests(w, t) && t.store == s.store && t.log == s.log && t.savedAt == s.savedAt
  {
    var t := Next(w, s, step);
    assert step.Unlock? ==> ReqOk(w, s.log, s.reqs[step.r]);
    forall r | r in t.reqs ensures ReqOk(w, t.log, t.reqs[r]) {
      if r != step.r { assert ReqOk(w, s.log, s.reqs[r]); }
    }
  }

  lemma LockStepKeepsInv(w: World, s: State, step: Step)
    requires Inv(w, s) && Enabled(w, s, step)
    requires step.Arrive? || step.Enter? || step.Lock? || step.Unlock? || step.Exit?
    ensures Inv(w, Next(w, s, step))
  {
    var t := Next(w, s, step);
    LockStepKeepsSound(w, s, step);
    LockStepKeepsPlaces(w, s, step);
    LockStepKeepsRequests(w, s, step);
    LogsUnmoved(w, s, t);
  }

  // ----- whole runs -----

  lemma StepKeepsInv(w: World, s: State, step: Step)
    requires EngineContract(w) && Inv(w, s) && Enabled(w, s, step)
    ensures Inv(w, Next(w, s, step))
  {
    match step
    case Open(_, _, _, _) => OpenKeepsInv(w, s, step);
    case DropSave(_, _, _) => DropSaveKeepsInv(w, s, step);
    case LoadIt(r) => if s.reqs[r].op.DeleteOp? { DeleteKeepsInv(w, s, r); } else { LoadKeepsInv(w, s, r); }
    case Work(r, seed, now) => WorkKeepsInv(w, s, r, seed, now);
    case Commit(r, now) => CommitKeepsInv(w, s, r, now);
    case _ => LockStepKeepsInv(w, s, step);
  }

  lemma {:induction false} RunKeepsInv(w: World, s: State, steps: seq<Step>)
    requires EngineContract(w) && Inv(w, s) && Possible(w, s, steps)
    ensures Inv(w, After(w, s, steps))
    decreases |steps|
  {
    if steps != [] {
      StepKeepsInv(w, s, steps[0]);
      RunKeepsInv(w, Next(w, s, steps[0]), steps[1..]);
    }
  }
}
