/** Saving and restoring: a restore takes the game back to the moment of the save, and from there the game
    plays on exactly as it would have. */
module SaveRestore {
  import opened GameStore
  import opened Service
  import opened Transcript

  datatype Served = Served(req: Request, seed: nat, now: int)

  ghost function ServeAll(w: World, s: Store, xs: seq<Served>): Store
    decreases |xs|
  {
    if xs == [] then s else ServeAll(w, Serve(w, s, xs[0].req, xs[0].seed, xs[0].now).0, xs[1..])
  }

  /** What the engine and the player's future depend on: everything but the screen and the bookkeeping. */
  datatype Core = Core(storyKey: StoryKey, state: Bytes, status: StatusLine, turn: nat, halted: bool)

  function CoreOf(session: Session): Core {
    Core(session.storyKey, session.state, session.status, session.turn, session.halted)
  }

  /** The request leaves the save where it is: it is not the owner deleting the save or the game, nor saving
      the game again under the same name. Turns, restarts, restores, other saves, other games and other
      people's requests of every kind are all allowed. */
  predicate LeavesSave(w: World, req: Request, save: Snapshot) {
    req.On? && req.user == save.userID && req.game == save.gameID ==>
      match req.op
      case DeleteOp => false
      case DeleteSaveOp(id) => id != save.id
      case SaveOp(name, _) => !SameSaveName(w.fold, save.name, name)
      case _ => true
  }

  ghost predicate Kept(s: Store, save: Snapshot) {
    && Owns(s, save.userID, save.gameID)
    && s.sessions[save.gameID].storyKey == save.storyKey
    && save.id in s.saves && s.saves[save.id] == save
  }

  lemma UpdateKeepsSave(s: Store, session: Session, now: int, save: Snapshot)
    requires Kept(s, save)
    requires session.id in s.sessions ==> session.storyKey == s.sessions[session.id].storyKey
    ensures Kept(Update(s, session, now).0, save)
  {
  }

  lemma CreateSaveKeepsSave(w: World, s: Store, snapshot: Snapshot, now: int, save: Snapshot)
    requires Good(w, s) && Kept(s, save)
    requires snapshot.userID == save.userID && snapshot.gameID == save.gameID ==>
               !SameSaveName(w.fold, save.name, snapshot.name)
    ensures Kept(CreateSave(w.fold, s, snapshot, now).0, save)
  {
    CreateSaveKeepsWellFormed(w.fold, s, snapshot, now);
    CreateSavePuts(w.fold, s, snapshot, now);
    var r := CreateSave(w.fold, s, snapshot, now).1;
    if r.Ok? && r.value.1 {
      assert r.value.0.id in Named(w.fold, s, snapshot.gameID, snapshot.name);
    }
  }

  lemma ServeSaveKeepsSave(w: World, s: Store, user: string, game: string, name: string, echo: string, now: int,
                           save: Snapshot)
    requires Good(w, s) && Kept(s, save) && LeavesSave(w, On(user, game, SaveOp(name, echo)), save)
    ensures Kept(ServeSave(w, s, user, game, name, echo, now).0, save)
  {
    LoadedIsStored(w, s, user, game);
    var r := LoadToSave(s, user, game);
    if r.Ok? {
      CreateSaveKeepsSave(w, s, SnapshotOf(r.value, name), now, save);
      var (t, c) := CreateSave(w.fold, s, SnapshotOf(r.value, name), now);
      if c.Ok? {
        UpdateKeepsSave(t, SavedNoted(w, r.value, c.value.0.name, echo, c.value.1), now, save);
      }
    }
  }

  lemma ServeRestoreKeepsSave(w: World, s: Store, user: string, game: string, from: string, echo: string, now: int,
                              save: Snapshot)
    requires Good(w, s) && Kept(s, save)
    ensures Kept(ServeRestore(w, s, user, game, from, echo, now).0, save)
  {
    LoadedIsStored(w, s, user, game);
  }

  lemma ServeTurnKeepsSave(w: World, s: Store, user: string, game: string, command: string, seed: nat, now: int,
                           save: Snapshot)
    requires Good(w, s) && Kept(s, save)
    ensures Kept(ServePlay(w, s, user, game, command, seed, now).0, save)
    ensures Kept(ServeRestart(w, s, user, game, seed, now).0, save)
  {
    LoadedIsStored(w, s, user, game);
  }

  lemma ServeOpKeepsSave(w: World, s: Store, user: string, game: string, op: Op, seed: nat, now: int, save: Snapshot)
    requires Good(w, s) && Kept(s, save) && LeavesSave(w, On(user, game, op), save)
    ensures Kept(ServeOp(w, s, user, game, op, seed, now).0, save)
  {
    match op
    case PlayOp(command) => ServeTurnKeepsSave(w, s, user, game, command, seed, now, save);
    case RestartOp => ServeTurnKeepsSave(w, s, user, game, "", seed, now, save);
    case SaveOp(name, echo) => ServeSaveKeepsSave(w, s, user, game, name, echo, now, save);
    case RestoreOp(from, echo) => ServeRestoreKeepsSave(w, s, user, game, from, echo, now, save);
    case RestoreNamedOp(name, echo) =>
      var f := FindSave(w, s, user, game, name);
      if f.Ok? { ServeRestoreKeepsSave(w, s, user, game, f.value, echo, now, save); }
    case DeleteOp =>
    case DeleteSaveOp(id) =>
  }

  lemma ServeKeepsSave(w: World, s: Store, x: Served, save: Snapshot)
    requires Good(w, s) && Kept(s, save) && LeavesSave(w, x.req, save)
    ensures Kept(Serve(w, s, x.req, x.seed, x.now).0, save)
  {
    match x.req
    case NewGame(user, story) =>
      if story in w.stories && w.start(w.stories[story], x.seed).Done? {
        CreateKeepsWellFormed(w.fold, s, Opening(user, w.stories[story], w.start(w.stories[story], x.seed).result),
                              x.now);
      }
    case On(user, game, op) => ServeOpKeepsSave(w, s, user, game, op, x.seed, x.now, save);
  }

  lemma {:induction false} ServeAllKeepsSave(w: World, s: Store, xs: seq<Served>, save: Snapshot)
    requires EngineContract(w) && Good(w, s) && Kept(s, save) && forall x | x in xs :: LeavesSave(w, x.req, save)
    ensures Good(w, ServeAll(w, s, xs)) && Kept(ServeAll(w, s, xs), save)
    decreases |xs|
  {
    if xs != [] {
      ServeKeepsGood(w, s, xs[0].req, xs[0].seed, xs[0].now);
      ServeKeepsSave(w, s, xs[0], save);
      assert forall x | x in xs[1..] :: x in xs;
      ServeAllKeepsSave(w, Serve(w, s, xs[0].req, xs[0].seed, xs[0].now).0, xs[1..], save);
    }
  }

  /** A save that succeeds records the game as it stands, and leaves what can be played from alone. */
  lemma SaveRecords(w: World, s: Store, user: string, game: string, name: string, echo: string, now: int)
    requires Good(w, s) && ServeSave(w, s, user, game, name, echo, now).1.SavedAs?
    ensures var (t, reply) := ServeSave(w, s, user, game, name, echo, now);
            && game in s.sessions && game in t.sessions
            && CoreOf(t.sessions[game]) == CoreOf(s.sessions[game])
            && reply.save.id in t.saves
            && var save := t.saves[reply.save.id];
               && Kept(t, save) && save.userID == user && save.gameID == game && save.name == name
               && save.state == s.sessions[game].state && save.status == s.sessions[game].status
               && save.turn == s.sessions[game].turn && save.transcript == s.sessions[game].transcript
  {
    LoadedIsStored(w, s, user, game);
    var base := LoadToSave(s, user, game).value;
    CreateSavePuts(w.fold, s, SnapshotOf(base, name), now);
  }

  lemma RestoreTakesBack(w: World, s: Store, save: Snapshot, echo: string, seed: nat, now: int)
    requires Good(w, s) && Kept(s, save)
    ensures var (t, reply) := Serve(w, s, On(save.userID, save.gameID, RestoreOp(save.id, echo)), seed, now);
            && reply.RestoredFrom? && reply.save == Summarize(save) && Owns(t, save.userID, save.gameID)
            && t.sessions[save.gameID] == reply.session
            && CoreOf(reply.session) == Core(save.storyKey, save.state, save.status, save.turn, false)
            && reply.session.transcript == AppendNotice(save.transcript, echo, RestoredNotice(w, save.name))
  {
    LoadedIsStored(w, s, save.userID, save.gameID);
    assert SessionOk(s, save.gameID);
    assert SaveOk(s, save.id);
  }

  /** A name typed at the prompt finds the one save it names. */
  lemma RestoreByNameFindsIt(w: World, s: Store, save: Snapshot, name: string, echo: string, seed: nat, now: int)
    requires Good(w, s) && Kept(s, save) && SameSaveName(w.fold, save.name, name)
    ensures Serve(w, s, On(save.userID, save.gameID, RestoreNamedOp(name, echo)), seed, now)
            == Serve(w, s, On(save.userID, save.gameID, RestoreOp(save.id, echo)), seed, now)
  {
    assert save.id in Named(w.fold, s, save.gameID, name);
    AtMostOneNamed(w.fold, s, save.gameID, name, save.id);
  }

  predicate TurnsOf(xs: seq<Served>, user: string, game: string) {
    forall x | x in xs :: x.req.On? && x.req.user == user && x.req.game == game && x.req.op.PlayOp?
  }

  /** What a command makes of a core. */
  function CoreAfter(w: World, core: Core, command: string, seed: nat): Core {
    var o := RunTurn(w, core.storyKey, core.state, command, seed);
    if core.halted || !InLibrary(w, core.storyKey) || o.Failed? then core
    else Core(core.storyKey, o.result.state, o.result.status, core.turn + 1, o.result.halted)
  }

  lemma TurnOnCore(w: World, s: Store, user: string, game: string, command: string, seed: nat, now: int)
    requires Good(w, s) && Owns(s, user, game)
    ensures var t := ServePlay(w, s, user, game, command, seed, now).0;
            Owns(t, user, game) && CoreOf(t.sessions[game]) == CoreAfter(w, CoreOf(s.sessions[game]), command, seed)
  {
    LoadedIsStored(w, s, user, game);
  }

  lemma SameTurn(w: World, a: Store, b: Store, user: string, game: string, x: Served, now: int)
    requires EngineContract(w) && Good(w, a) && Good(w, b)
    requires Owns(a, user, game) && Owns(b, user, game) && TurnsOf([x], user, game)
    requires CoreOf(a.sessions[game]) == CoreOf(b.sessions[game])
    ensures var t, u := Serve(w, a, x.req, x.seed, x.now).0, Serve(w, b, x.req, x.seed, now).0;
            Owns(t, user, game) && Owns(u, user, game) && CoreOf(t.sessions[game]) == CoreOf(u.sessions[game])
  {
    assert [x][0] in [x];
    if user != "" {
      TurnOnCore(w, a, user, game, x.req.op.command, x.seed, x.now);
      TurnOnCore(w, b, user, game, x.req.op.command, x.seed, now);
    }
  }

  /** From equal states, the same commands play out the same. */
  lemma {:induction false} SameFuture(w: World, a: Store, b: Store, user: string, game: string, xs: seq<Served>)
    requires EngineContract(w) && Good(w, a) && Good(w, b)
    requires Owns(a, user, game) && Owns(b, user, game) && TurnsOf(xs, user, game)
    requires CoreOf(a.sessions[game]) == CoreOf(b.sessions[game])
    ensures var t, u := ServeAll(w, a, xs), ServeAll(w, b, xs);
            Owns(t, user, game) && Owns(u, user, game) && CoreOf(t.sessions[game]) == CoreOf(u.sessions[game])
    decreases |xs|
  {
    if xs != [] {
      var x := xs[0];
      assert TurnsOf([x], user, game);
      SameTurn(w, a, b, user, game, x, x.now);
      ServeKeepsGood(w, a, x.req, x.seed, x.now);
      ServeKeepsGood(w, b, x.req, x.seed, x.now);
      assert forall y | y in xs[1..] :: y in xs;
      SameFuture(w, Serve(w, a, x.req, x.seed, x.now).0, Serve(w, b, x.req, x.seed, x.now).0, user, game, xs[1..]);
    }
  }

  /** Save and restore replay. Save a game; then let anything happen that leaves that save in place; then
      restore it. The game is back at the saved State, Status and Turn and is not halted, its screen is the saved
      one with a line saying so, and any commands played from there give the State, Status, Turn and Halted they
      would have given at the save. */
  lemma SaveThenRestoreReplays(w: World, s: Store, user: string, game: string, name: string, echo: string,
                               savedAt: int, between: seq<Served>, restored: Served, echo': string, plays: seq<Served>)
    requires EngineContract(w) && Good(w, s) && user != ""
    requires ServeSave(w, s, user, game, name, echo, savedAt).1.SavedAs?
    requires var (t, reply) := ServeSave(w, s, user, game, name, echo, savedAt);
             && reply.save.id in t.saves
             && (forall x | x in between :: LeavesSave(w, x.req, t.saves[reply.save.id]))
             && restored.req == On(user, game, RestoreOp(reply.save.id, echo'))
    requires TurnsOf(plays, user, game)
    ensures var t := ServeSave(w, s, user, game, name, echo, savedAt).0;
            var later := ServeAll(w, t, between);
            var back := Serve(w, later, restored.req, restored.seed, restored.now).0;
            && game in back.sessions && CoreOf(back.sessions[game]) == CoreOf(s.sessions[game])
            && !back.sessions[game].halted
            && back.sessions[game].transcript
               == AppendNotice(s.sessions[game].transcript, echo', RestoredNotice(w, name))
            && game in ServeAll(w, back, plays).sessions && game in ServeAll(w, t, plays).sessions
            && CoreOf(ServeAll(w, back, plays).sessions[game]) == CoreOf(ServeAll(w, t, plays).sessions[game])
  {
    var (t, reply) := ServeSave(w, s, user, game, name, echo, savedAt);
    SaveRecords(w, s, user, game, name, echo, savedAt);
    ServeSaveKeepsGood(w, s, user, game, name, echo, savedAt);
    var save := t.saves[reply.save.id];
    var later := ServeAll(w, t, between);
    ServeAllKeepsSave(w, t, between, save);
    RestoreTakesBack(w, later, save, echo', restored.seed, restored.now);
    ServeKeepsGood(w, later, restored.req, restored.seed, restored.now);
    var back := Serve(w, later, restored.req, restored.seed, restored.now).0;
    assert Alive(s.sessions[game]) && save.state != [];
    SameFuture(w, back, t, user, game, plays);
  }
}
