/** The service's operations on one session (internal/game/session.go, internal/game/saves.go), each served
    from start to finish with nothing in between. Module Protocol interleaves the same steps. */
module Service {
  import opened Text
  import opened GameStore
  import opened Transcript

  // ----- the world around the service -----

  datatype EngineResult = EngineResult(output: string, status: StatusLine, state: Bytes, halted: bool)

  datatype Outcome = Failed | Done(result: EngineResult)

  /** The code the service calls and cannot see: the story library, the engine, name folding and the quoting
      of names in notices. `seed` stands for whatever else decides an engine call: the random state a new
      machine starts from, a deadline that passes. */
  datatype World = World(
    fold: Folding,
    quote: string -> string,
    stories: map<string, StoryKey>,
    start: (StoryKey, nat) -> Outcome,
    turn: (StoryKey, Bytes, string, nat) -> Outcome)

  /** Halted gives no state, waiting for input gives some. */
  predicate Resumable(o: Outcome) { o.Done? ==> (o.result.halted <==> o.result.state == []) }

  ghost predicate EngineContract(w: World) {
    && (forall key, seed :: Resumable(w.start(key, seed)))
    && (forall key, state, command, seed :: Resumable(w.turn(key, state, command, seed)))
  }

  const MAX_COMMAND_BYTES: nat := 256

  /** Runner.Run: a turn without a state or with an over-long command fails before the engine starts. */
  function RunTurn(w: World, key: StoryKey, state: Bytes, command: string, seed: nat): Outcome {
    if state == [] || |command| > MAX_COMMAND_BYTES then Failed else w.turn(key, state, command, seed)
  }

  predicate InLibrary(w: World, key: StoryKey) { key in w.stories.Values }

  // ----- what an operation does to the session it loaded -----

  function SavedNotice(w: World, name: string, replaced: bool): string {
    if replaced then "Saved as " + w.quote(name) + ", replacing the earlier one."
    else "Saved as " + w.quote(name) + "."
  }

  function RestoredNotice(w: World, name: string): string { "Restored " + w.quote(name) + "." }

  function Played(base: Session, command: string, result: EngineResult): Session {
    base.(state := result.state, transcript := AppendTranscript(base.transcript, command, result.output),
          status := result.status, halted := result.halted, turn := base.turn + 1)
  }

  function Restarted(base: Session, result: EngineResult): Session {
    base.(state := result.state, transcript := result.output, status := result.status,
          halted := result.halted, turn := 0)
  }

  function SavedNoted(w: World, base: Session, name: string, echo: string, replaced: bool): Session {
    base.(transcript := AppendNotice(base.transcript, echo, SavedNotice(w, name, replaced)))
  }

  function Restored(w: World, base: Session, snapshot: Snapshot, echo: string): Session {
    base.(state := snapshot.state, status := snapshot.status, turn := snapshot.turn, halted := false,
          transcript := AppendNotice(snapshot.transcript, echo, RestoredNotice(w, snapshot.name)))
  }

  function SnapshotOf(base: Session, name: string): Snapshot {
    Snapshot("", base.userID, base.id, name, base.storyKey, base.state, base.transcript, base.status, base.turn, 0)
  }

  // ----- what an operation asks of the session it loads -----

  function LoadToPlay(w: World, s: Store, user: string, game: string): Result<Session> {
    var r := Load(s, user, game);
    if r.Err? then r
    else if r.value.halted then Err(GameOver)
    else if !InLibrary(w, r.value.storyKey) then Err(StoryUnavailable)
    else r
  }

  function LoadToRestart(w: World, s: Store, user: string, game: string): Result<Session> {
    var r := Load(s, user, game);
    if r.Ok? && !InLibrary(w, r.value.storyKey) then Err(StoryUnavailable) else r
  }

  function LoadToSave(s: Store, user: string, game: string): Result<Session> {
    var r := Load(s, user, game);
    if r.Ok? && r.value.state == [] then Err(GameOver) else r
  }

  function SnapshotToRestore(s: Store, base: Session, user: string, game: string, save: string): Result<Snapshot> {
    var r := LoadSave(s, user, game, save);
    if r.Ok? && r.value.storyKey != base.storyKey then Err(SaveMismatch) else r
  }

  /** playRestore's search: the save of the game under that name. */
  ghost function FindSave(w: World, s: Store, user: string, game: string, name: string): Result<string> {
    if !Owns(s, user, game) then Err(SessionNotFound)
    else if Named(w.fold, s, game, name) == {} then Err(SaveNotFound)
    else Ok(Pick(Named(w.fold, s, game, name)))
  }

  // ----- serving a request -----

  datatype Op =
    | PlayOp(command: string)
    | SaveOp(name: string, echo: string)
    | RestoreOp(save: string, echo: string)
    | RestoreNamedOp(name: string, echo: string)
    | RestartOp
    | DeleteOp
    | DeleteSaveOp(save: string)

  datatype Request = NewGame(user: string, story: string) | On(user: string, game: string, op: Op)

  datatype Reply =
    | Answered(session: Session)
    | SavedAs(session: Session, save: Save, replaced: bool)
    | RestoredFrom(session: Session, save: Save)
    | Gone
    | SaveGone(save: Save)
    | Refused(error: Error)

  function Answer(r: Result<Session>): Reply {
    if r.Ok? then Answered(r.value) else Refused(r.error)
  }

  ghost function ServePlay(w: World, s: Store, user: string, game: string, command: string, seed: nat, now: int)
    : (Store, Reply)
  {
    var r := LoadToPlay(w, s, user, game);
    if r.Err? then (s, Refused(r.error))
    else
      var o := RunTurn(w, r.value.storyKey, r.value.state, command, seed);
      if o.Failed? then (s, Refused(EngineFailed))
      else var (t, u) := Update(s, Played(r.value, command, o.result), now); (t, Answer(u))
  }

  ghost function ServeRestart(w: World, s: Store, user: string, game: string, seed: nat, now: int): (Store, Reply) {
    var r := LoadToRestart(w, s, user, game);
    if r.Err? then (s, Refused(r.error))
    else
      var o := w.start(r.value.storyKey, seed);
      if o.Failed? then (s, Refused(EngineFailed))
      else var (t, u) := Update(s, Restarted(r.value, o.result), now); (t, Answer(u))
  }

  ghost function ServeSave(w: World, s: Store, user: string, game: string, name: string, echo: string, now: int)
    : (Store, Reply)
  {
    var r := LoadToSave(s, user, game);
    if r.Err? then (s, Refused(r.error))
    else
      var (t, c) := CreateSave(w.fold, s, SnapshotOf(r.value, name), now);
      if c.Err? then (t, Refused(c.error))
      else
        var noted := SavedNoted(w, r.value, c.value.0.name, echo, c.value.1);
        var (v, u) := Update(t, noted, now);
        (v, SavedAs(if u.Ok? then u.value else noted, c.value.0, c.value.1))
  }

  ghost function ServeRestore(w: World, s: Store, user: string, game: string, save: string, echo: string, now: int)
    : (Store, Reply)
  {
    var r := Load(s, user, game);
    if r.Err? then (s, Refused(r.error))
    else
      var c := SnapshotToRestore(s, r.value, user, game, save);
      if c.Err? then (s, Refused(c.error))
      else
        var (t, u) := Update(s, Restored(w, r.value, c.value, echo), now);
        (t, if u.Ok? then RestoredFrom(u.value, Summarize(c.value)) else Refused(u.error))
  }

  ghost function ServeOp(w: World, s: Store, user: string, game: string, op: Op, seed: nat, now: int): (Store, Reply) {
    match op
    case PlayOp(command) => ServePlay(w, s, user, game, command, seed, now)
    case RestartOp => ServeRestart(w, s, user, game, seed, now)
    case SaveOp(name, echo) => ServeSave(w, s, user, game, name, echo, now)
    case RestoreOp(save, echo) => ServeRestore(w, s, user, game, save, echo, now)
    case RestoreNamedOp(name, echo) =>
      var f := FindSave(w, s, user, game, name);
      if f.Err? then (s, Refused(f.error)) else ServeRestore(w, s, user, game, f.value, echo, now)
    case DeleteOp =>
      var (t, d) := Delete(s, user, game); (t, if d.Ok? then Gone else Refused(d.error))
    case DeleteSaveOp(save) =>
      var (t, d) := DeleteSave(s, user, game, save); (t, if d.Ok? then SaveGone(d.value) else Refused(d.error))
  }

  function Opening(user: string, key: StoryKey, result: EngineResult): Session {
    Session("", user, key, result.state, result.output, result.status, 0, 0, result.halted)
  }

  ghost function Serve(w: World, s: Store, req: Request, seed: nat, now: int): (Store, Reply) {
    if req.user == "" then (s, Refused(NoUser))
    else match req
      case NewGame(user, story) =>
        if story !in w.stories then (s, Refused(StoryUnavailable))
        else
          var o := w.start(w.stories[story], seed);
          if o.Failed? then (s, Refused(EngineFailed))
          else var (t, r) := Create(s, Opening(user, w.stories[story], o.result), now); (t, Answer(r))
      case On(user, game, op) => ServeOp(w, s, user, game, op, seed, now)
  }

  // ----- what every reachable store satisfies -----

  predicate Alive(session: Session) { session.halted <==> session.state == [] }

  /** A game is halted exactly when it has no state; every save can be restored into its own game. */
  ghost predicate Coherent(s: Store) {
    && (forall id | id in s.sessions :: Alive(s.sessions[id]))
    && (forall id | id in s.saves :: s.saves[id].state != [] && s.saves[id].gameID in s.sessions
                                     && s.saves[id].storyKey == s.sessions[s.saves[id].gameID].storyKey)
  }

  ghost predicate Good(w: World, s: Store) { WellFormed(w.fold, s) && Coherent(s) }

  lemma CreateKeepsGood(w: World, s: Store, session: Session, now: int)
    requires Good(w, s) && Alive(session)
    ensures Good(w, Create(s, session, now).0)
  {
    CreateKeepsWellFormed(w.fold, s, session, now);
  }

  lemma UpdateKeepsGood(w: World, s: Store, session: Session, now: int)
    requires Good(w, s) && Alive(session)
    requires session.id in s.sessions ==> session.storyKey == s.sessions[session.id].storyKey
    ensures Good(w, Update(s, session, now).0)
  {
    UpdateKeepsWellFormed(w.fold, s, session, now);
  }

  lemma CreateSaveKeepsGood(w: World, s: Store, snapshot: Snapshot, now: int)
    requires Good(w, s) && snapshot.state != []
    requires snapshot.gameID in s.sessions ==> snapshot.storyKey == s.sessions[snapshot.gameID].storyKey
    ensures Good(w, CreateSave(w.fold, s, snapshot, now).0)
  {
    CreateSaveKeepsWellFormed(w.fold, s, snapshot, now);
    CreateSavePuts(w.fold, s, snapshot, now);
    var (t, r) := CreateSave(w.fold, s, snapshot, now);
    if r.Ok? {
      PutSaveKeepsCoherent(s, snapshot.(id := r.value.0.id, createdAt := now), t.nextSave);
    }
  }

  lemma PutSaveKeepsCoherent(s: Store, save: Snapshot, counter: nat)
    requires Coherent(s) && save.state != [] && save.gameID in s.sessions
    requires save.storyKey == s.sessions[save.gameID].storyKey
    ensures Coherent(PutSave(s, save, counter))
  {
  }

  lemma DeleteKeepsGood(w: World, s: Store, user: string, game: string)
    requires Good(w, s)
    ensures Good(w, Delete(s, user, game).0)
  {
    DeleteKeepsWellFormed(w.fold, s, user, game);
  }

  lemma DeleteSaveKeepsGood(w: World, s: Store, user: string, game: string, save: string)
    requires Good(w, s)
    ensures Good(w, DeleteSave(s, user, game, save).0)
  {
    DeleteSaveKeepsWellFormed(w.fold, s, user, game, save);
  }

  /** The engine's contract makes a played or restarted session halted exactly when stateless. */
  lemma EngineKeepsAlive(w: World, base: Session, command: string, seed: nat)
    requires EngineContract(w)
    ensures var o := RunTurn(w, base.storyKey, base.state, command, seed);
            o.Done? ==> Alive(Played(base, command, o.result))
    ensures var o := w.start(base.storyKey, seed); o.Done? ==> Alive(Restarted(base, o.result))
  {
    assert Resumable(w.turn(base.storyKey, base.state, command, seed));
    assert Resumable(w.start(base.storyKey, seed));
  }

  predicate NeverSeen(r: Reply) {
    r != Refused(SaveMismatch) && r != Refused(VersionConflict)
  }

  lemma LoadedIsStored(w: World, s: Store, user: string, game: string)
    requires Good(w, s)
    ensures var r := Load(s, user, game);
            r.Ok? ==> game in s.sessions && r.value == s.sessions[game] && r.value.id == game
                      && r.value.userID == user && Alive(r.value)
  {
    if game in s.sessions { assert SessionOk(s, game); }
  }

  lemma ServeSaveKeepsGood(w: World, s: Store, user: string, game: string, name: string, echo: string, now: int)
    requires Good(w, s)
    ensures Good(w, ServeSave(w, s, user, game, name, echo, now).0)
  {
    LoadedIsStored(w, s, user, game);
    var r := LoadToSave(s, user, game);
    if r.Ok? {
      CreateSaveKeepsGood(w, s, SnapshotOf(r.value, name), now);
      var (t, c) := CreateSave(w.fold, s, SnapshotOf(r.value, name), now);
      if c.Ok? {
        UpdateKeepsGood(w, t, SavedNoted(w, r.value, c.value.0.name, echo, c.value.1), now);
      }
    }
  }

  lemma ServeRestoreKeepsGood(w: World, s: Store, user: string, game: string, save: string, echo: string, now: int)
    requires Good(w, s)
    ensures Good(w, ServeRestore(w, s, user, game, save, echo, now).0)
    ensures NeverSeen(ServeRestore(w, s, user, game, save, echo, now).1)
  {
    LoadedIsStored(w, s, user, game);
    var r := Load(s, user, game);
    if r.Ok? {
      var c := SnapshotToRestore(s, r.value, user, game, save);
      if c.Ok? {
        UpdateKeepsGood(w, s, Restored(w, r.value, c.value, echo), now);
      }
    }
  }

  /** Every operation keeps the store good; a save never belongs to another story, and served alone no
      operation meets a version conflict. */
  lemma ServeKeepsGood(w: World, s: Store, req: Request, seed: nat, now: int)
    requires EngineContract(w) && Good(w, s)
    ensures Good(w, Serve(w, s, req, seed, now).0)
    ensures NeverSeen(Serve(w, s, req, seed, now).1)
  {
    if req.user != "" {
      match req
      case NewGame(user, story) =>
        if story in w.stories {
          var o := w.start(w.stories[story], seed);
          assert Resumable(o);
          if o.Done? { CreateKeepsGood(w, s, Opening(user, w.stories[story], o.result), now); }
        }
      case On(user, game, op) => ServeOpKeepsGood(w, s, user, game, op, seed, now);
    }
  }

  lemma ServePlayKeepsGood(w: World, s: Store, user: string, game: string, command: string, seed: nat, now: int)
    requires EngineContract(w) && Good(w, s)
    ensures Good(w, ServePlay(w, s, user, game, command, seed, now).0)
    ensures NeverSeen(ServePlay(w, s, user, game, command, seed, now).1)
  {
    LoadedIsStored(w, s, user, game);
    var r := LoadToPlay(w, s, user, game);
    if r.Ok? {
      EngineKeepsAlive(w, r.value, command, seed);
      var o := RunTurn(w, r.value.storyKey, r.value.state, command, seed);
      if o.Done? { UpdateKeepsGood(w, s, Played(r.value, command, o.result), now); }
    }
  }

  lemma ServeRestartKeepsGood(w: World, s: Store, user: string, game: string, seed: nat, now: int)
    requires EngineContract(w) && Good(w, s)
    ensures Good(w, ServeRestart(w, s, user, game, seed, now).0)
    ensures NeverSeen(ServeRestart(w, s, user, game, seed, now).1)
  {
    LoadedIsStored(w, s, user, game);
    var r := LoadToRestart(w, s, user, game);
    if r.Ok? {
      EngineKeepsAlive(w, r.value, "", seed);
      var o := w.start(r.value.storyKey, seed);
      if o.Done? { UpdateKeepsGood(w, s, Restarted(r.value, o.result), now); }
    }
  }

  lemma ServeOpKeepsGood(w: World, s: Store, user: string, game: string, op: Op, seed: nat, now: int)
    requires EngineContract(w) && Good(w, s)
    ensures Good(w, ServeOp(w, s, user, game, op, seed, now).0)
    ensures NeverSeen(ServeOp(w, s, user, game, op, seed, now).1)
  {
    match op
    case PlayOp(command) => ServePlayKeepsGood(w, s, user, game, command, seed, now);
    case RestartOp => ServeRestartKeepsGood(w, s, user, game, seed, now);
    case SaveOp(name, echo) => ServeSaveKeepsGood(w, s, user, game, name, echo, now);
    case RestoreOp(save, echo) => ServeRestoreKeepsGood(w, s, user, game, save, echo, now);
    case RestoreNamedOp(name, echo) => ServeNamedKeepsGood(w, s, user, game, name, echo, seed, now);
    case _ => DropKeepsGood(w, s, user, game, op, seed, now);
  }

  lemma ServeNamedKeepsGood(w: World, s: Store, user: string, game: string, name: string, echo: string,
                            seed: nat, now: int)
    requires Good(w, s)
    ensures Good(w, ServeOp(w, s, user, game, RestoreNamedOp(name, echo), seed, now).0)
    ensures NeverSeen(ServeOp(w, s, user, game, RestoreNamedOp(name, echo), seed, now).1)
  {
    var f := FindSave(w, s, user, game, name);
    if f.Ok? { ServeRestoreKeepsGood(w, s, user, game, f.value, echo, now); }
  }

  lemma DropKeepsGood(w: World, s: Store, user: string, game: string, op: Op, seed: nat, now: int)
    requires Good(w, s) && (op.DeleteOp? || op.DeleteSaveOp?)
    ensures Good(w, ServeOp(w, s, user, game, op, seed, now).0)
    ensures NeverSeen(ServeOp(w, s, user, game, op, seed, now).1)
  {
    if op.DeleteOp? { DeleteKeepsGood(w, s, user, game); } else { DeleteSaveKeepsGood(w, s, user, game, op.save); }
  }
}
