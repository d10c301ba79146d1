/** The read-run-write cycle of internal/game/session.go under concurrency: any number of requests, from any
    number of processes over one store, interleaved at every step they take. */
module Protocol {
  import opened GameStore
  import opened Service
  import opened Locks

  // ----- the log of a game -----

  /** An update that was written. A restore names the point in the game's own log it goes back to, so a log
      holds nothing the engine or the store computed. */
  datatype Committed =
    | CPlayed(command: string, seed: nat)
    | CRestarted(seed: nat)
    | CSaved(name: string, echo: string, replaced: bool)
    | CRestored(at: nat, name: string, echo: string)

  datatype History = History(opening: Session, ops: seq<Committed>)

  /** `op` applied to `base`, the session after the first `n` entries. */
  function ApplyOp(w: World, h: History, n: nat, op: Committed, base: Session): Session
    requires n <= |h.ops|
    decreases n, 1
  {
    match op
    case CPlayed(command, seed) =>
      var o := RunTurn(w, base.storyKey, base.state, command, seed);
      if o.Done? then Played(base, command, o.result) else base
    case CRestarted(seed) =>
      var o := w.start(base.storyKey, seed);
      if o.Done? then Restarted(base, o.result) else base
    case CSaved(name, echo, replaced) => SavedNoted(w, base, name, echo, replaced)
    case CRestored(at, name, echo) =>
      if at <= n then Restored(w, base, SnapshotOf(Replay(w, h, at), name), echo) else base
  }

  /** Sequential replay: the session after the first `n` entries of its log, one after the other. */
  function Replay(w: World, h: History, n: nat): Session
    requires n <= |h.ops|
    decreases n, 0
  {
    if n == 0 then h.opening
    else
      var base := Replay(w, h, n - 1);
      ApplyOp(w, h, n - 1, h.ops[n - 1], base).(version := base.version + 1)
  }

  predicate Extends(h: History, k: History) { h.opening == k.opening && h.ops <= k.ops }

  /** What happened later does not change what was. */
  lemma {:induction false} ReplayOfPrefix(w: World, h: History, k: History, n: nat)
    requires Extends(h, k) && n <= |h.ops|
    ensures Replay(w, h, n) == Replay(w, k, n)
    decreases n, 0
  {
    if n > 0 {
      ReplayOfPrefix(w, h, k, n - 1);
      ApplyOfPrefix(w, h, k, n - 1, h.ops[n - 1], Replay(w, h, n - 1));
    }
  }

  lemma {:induction false} ApplyOfPrefix(w: World, h: History, k: History, n: nat, op: Committed, base: Session)
    requires Extends(h, k) && n <= |h.ops|
    ensures ApplyOp(w, h, n, op, base) == ApplyOp(w, k, n, op, base)
    decreases n, 1
  {
    if op.CRestored? && op.at <= n {
      ReplayOfPrefix(w, h, k, op.at);
    }
  }

  /** Replay never changes whose game it is, and every entry moves the version by one. */
  lemma {:induction false} ReplayIdentity(w: World, h: History, n: nat)
    requires n <= |h.ops|
    ensures var r := Replay(w, h, n);
            && r.id == h.opening.id && r.userID == h.opening.userID && r.storyKey == h.opening.storyKey
            && r.version == h.opening.version + n
    decreases n
  {
    if n > 0 { ReplayIdentity(w, h, n - 1); }
  }

  // ----- requests and steps -----

  /** What a request answers with besides the session it writes. */
  datatype Hand = Nothing | Wrote(save: Save, replaced: bool) | Read(save: Save)

  /** The answer once the conditional write has come back: a save succeeds whether or not its notice does. */
  function CommitReply(hand: Hand, next: Session, u: Result<Session>): Reply {
    match hand
    case Nothing => Answer(u)
    case Wrote(save, replaced) => SavedAs(if u.Ok? then u.value else next, save, replaced)
    case Read(save) => if u.Ok? then RestoredFrom(u.value, save) else Refused(u.error)
  }

  /** Where a request is. `base` is the session it loaded, `next` the one it is about to write. */
  datatype Pc =
    | Arrived
    | Queued
    | AtLoad
    | AtWork(base: Session)
    | AtCommit(base: Session, next: Session, op: Committed, hand: Hand)
    | AtUnlock(reply: Reply)
    | AtExit(reply: Reply)

  /** `asked` is the operation as it arrived; `op` names the save once a restore by name has found it. */
  datatype Req = Req(process: nat, user: string, game: string, asked: Op, op: Op, pc: Pc)

  /** `log` and `savedAt` record what was written; no step reads them. */
  datatype State = State(store: Store, locks: LockState, reqs: map<nat, Req>,
                         log: map<string, History>, savedAt: map<string, nat>)

  const START: State := State(EMPTY, FREE, map[], map[], map[])

  datatype Step =
    | Open(user: string, story: string, seed: nat, now: int)
    | DropSave(user: string, game: string, save: string)
    | Arrive(r: nat, process: nat, user: string, game: string, op: Op)
    | Enter(r: nat)
    | Lock(r: nat)
    | LoadIt(r: nat)
    | Work(r: nat, seed: nat, now: int)
    | Commit(r: nat, now: int)
    | Unlock(r: nat)
    | Exit(r: nat)

  predicate Enabled(w: World, s: State, step: Step) {
    match step
    case Open(user, story, seed, now) => user != "" && story in w.stories && w.start(w.stories[story], seed).Done?
    case DropSave(user, game, save) => user != ""
    case Arrive(r, process, user, game, op) => r !in s.reqs && user != "" && !op.DeleteSaveOp?
    case Enter(r) => r in s.reqs && s.reqs[r].pc.Arrived? && r !in s.locks.clients
    case Lock(r) => r in s.reqs && s.reqs[r].pc.Queued? && CanAcquire(s.locks, r)
    case LoadIt(r) => r in s.reqs && s.reqs[r].pc.AtLoad?
    case Work(r, seed, now) => r in s.reqs && s.reqs[r].pc.AtWork?
    case Commit(r, now) => r in s.reqs && s.reqs[r].pc.AtCommit?
    case Unlock(r) => r in s.reqs && s.reqs[r].pc.AtUnlock? && CanRelease(s.locks, r)
    case Exit(r) => r in s.reqs && s.reqs[r].pc.AtExit? && CanLeave(s.locks, r)
  }

  function Move(s: State, r: nat, pc: Pc): State
    requires r in s.reqs
  {
    s.(reqs := s.reqs[r := s.reqs[r].(pc := pc)])
  }

  function Loaded(s: State, r: nat, loaded: Result<Session>): State
    requires r in s.reqs
  {
    Move(s, r, if loaded.Ok? then AtWork(loaded.value) else AtUnlock(Refused(loaded.error)))
  }

  ghost function LoadStep(w: World, s: State, r: nat): State
    requires r in s.reqs
  {
    var q := s.reqs[r];
    match q.op
    case PlayOp(_) => Loaded(s, r, LoadToPlay(w, s.store, q.user, q.game))
    case RestartOp => Loaded(s, r, LoadToRestart(w, s.store, q.user, q.game))
    case SaveOp(_, _) => Loaded(s, r, LoadToSave(s.store, q.user, q.game))
    case RestoreOp(_, _) => Loaded(s, r, Load(s.store, q.user, q.game))
    case RestoreNamedOp(name, echo) =>
      var f := FindSave(w, s.store, q.user, q.game, name);
      if f.Ok? then s.(reqs := s.reqs[r := q.(op := RestoreOp(f.value, echo))])
      else Move(s, r, AtUnlock(Refused(f.error)))
    case DeleteOp =>
      var (t, d) := Delete(s.store, q.user, q.game);
      Move(s.(store := t), r, AtUnlock(if d.Ok? then Gone else Refused(d.error)))
    case DeleteSaveOp(_) => Move(s, r, AtUnlock(Gone))
  }

  /** Where a turn or a restart goes once the engine has answered. */
  function TurnPc(w: World, base: Session, op: Op, seed: nat): Pc
    requires op.PlayOp? || op.RestartOp?
  {
    if op.PlayOp? then
      var o := RunTurn(w, base.storyKey, base.state, op.command, seed);
      if o.Failed? then AtUnlock(Refused(EngineFailed))
      else AtCommit(base, Played(base, op.command, o.result), CPlayed(op.command, seed), Nothing)
    else
      var o := w.start(base.storyKey, seed);
      if o.Failed? then AtUnlock(Refused(EngineFailed))
      else AtCommit(base, Restarted(base, o.result), CRestarted(seed), Nothing)
  }

  /** Where a restore goes once it has read the save. */
  function RestorePc(w: World, s: State, q: Req, base: Session): Pc
    requires q.op.RestoreOp?
  {
    var c := SnapshotToRestore(s.store, base, q.user, q.game, q.op.save);
    if c.Err? then AtUnlock(Refused(c.error))
    else
      var at := if q.op.save in s.savedAt then s.savedAt[q.op.save] else 0;
      AtCommit(base, Restored(w, base, c.value, q.op.echo), CRestored(at, c.value.name, q.op.echo),
               Read(Summarize(c.value)))
  }

  /** How many entries of its log a loaded session had behind it. */
  function PrefixOf(base: Session): nat { if base.version > 0 then base.version - 1 else 0 }

  /** What a save writes before it notes itself on the screen. */
  ghost function SavedState(w: World, s: State, base: Session, name: string, now: int): State {
    var (t, c) := CreateSave(w.fold, s.store, SnapshotOf(base, name), now);
    if c.Err? then s else s.(store := t, savedAt := s.savedAt[c.value.0.id := PrefixOf(base)])
  }

  ghost function SavePc(w: World, s: State, base: Session, name: string, echo: string, now: int): Pc {
    var c := CreateSave(w.fold, s.store, SnapshotOf(base, name), now).1;
    if c.Err? then AtUnlock(Refused(c.error))
    else AtCommit(base, SavedNoted(w, base, c.value.0.name, echo, c.value.1),
                  CSaved(c.value.0.name, echo, c.value.1), Wrote(c.value.0, c.value.1))
  }

  ghost function WorkStep(w: World, s: State, r: nat, seed: nat, now: int): State
    requires r in s.reqs && s.reqs[r].pc.AtWork?
  {
    var q := s.reqs[r];
    var base := q.pc.base;
    match q.op
    case PlayOp(_) => Move(s, r, TurnPc(w, base, q.op, seed))
    case RestartOp => Move(s, r, TurnPc(w, base, q.op, seed))
    case RestoreOp(_, _) => Move(s, r, RestorePc(w, s, q, base))
    case SaveOp(name, echo) => Move(SavedState(w, s, base, name, now), r, SavePc(w, s, base, name, echo, now))
    case _ => s
  }

  /** The log after an update: one more entry when it was written. */
  function Logged(log: map<string, History>, game: string, op: Committed, written: bool): map<string, History> {
    if written && game in log then log[game := log[game].(ops := log[game].ops + [op])] else log
  }

  function CommitStep(s: State, r: nat, now: int): State
    requires r in s.reqs && s.reqs[r].pc.AtCommit?
  {
    var q := s.reqs[r];
    var (t, u) := Update(s.store, q.pc.next, now);
    Move(s.(store := t, log := Logged(s.log, q.game, q.pc.op, u.Ok?)), r,
         AtUnlock(CommitReply(q.pc.hand, q.pc.next, u)))
  }

  ghost function Next(w: World, s: State, step: Step): State
    requires Enabled(w, s, step)
  {
    match step
    case Open(user, story, seed, now) =>
      var (t, r) := Create(s.store, Opening(user, w.stories[story], w.start(w.stories[story], seed).result), now);
      if r.Ok? then s.(store := t, log := s.log[r.value.id := History(r.value, [])]) else s
    case DropSave(user, game, save) => s.(store := DeleteSave(s.store, user, game, save).0)
    case Arrive(r, process, user, game, op) => s.(reqs := s.reqs[r := Req(process, user, game, op, op, Arrived)])
    case Enter(r) =>
      var q := s.reqs[r];
      Move(s.(locks := Register(s.locks, r, LockName(q.process, q.game))), r, Queued)
    case Lock(r) => Move(s.(locks := Acquire(s.locks, r)), r, AtLoad)
    case LoadIt(r) => LoadStep(w, s, r)
    case Work(r, seed, now) => WorkStep(w, s, r, seed, now)
    case Commit(r, now) => CommitStep(s, r, now)
    case Unlock(r) => Move(s.(locks := Release(s.locks, r)), r, AtExit(s.reqs[r].pc.reply))
    case Exit(r) => s.(locks := Leave(s.locks, r), reqs := s.reqs - {r})
  }

  /** `steps` is a possible run from `s`. */
  ghost predicate Possible(w: World, s: State, steps: seq<Step>)
    decreases |steps|
  {
    steps == [] || (Enabled(w, s, steps[0]) && Possible(w, Next(w, s, steps[0]), steps[1..]))
  }

  ghost function After(w: World, s: State, steps: seq<Step>): State
    requires Possible(w, s, steps)
    decreases |steps|
  {
    if steps == [] then s else After(w, Next(w, s, steps[0]), steps[1..])
  }
}
