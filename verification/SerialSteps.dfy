/** An operation on a game looks at nothing of the other games: served on two stores that agree on the rest, it
    answers the same and leaves them agreeing. */
module SerialSteps {
  import opened GameStore
  import opened Service

  /** What an operation on `game` can see of the store is the same in both. Timestamps are not compared. */
  ghost predicate Agree(s: Store, a: Store, game: string) {
    && a.saves == s.saves && a.nextID == s.nextID && a.nextSave == s.nextSave
    && a.sessions.Keys == s.sessions.Keys
    && (game in s.sessions ==> a.sessions[game] == s.sessions[game] && s.sessions[game].id == game)
  }

  /** The other games are as they were. */
  ghost predicate OnlyOn(s: Store, t: Store, game: string) {
    forall id: string | id != game ::
      (id in t.sessions <==> id in s.sessions) && (id in s.sessions ==> t.sessions[id] == s.sessions[id])
  }

  ghost predicate Alike(s: Store, a: Store, game: string, x: (Store, Reply), y: (Store, Reply)) {
    x.1 == y.1 && Agree(x.0, y.0, game) && OnlyOn(s, x.0, game) && OnlyOn(a, y.0, game)
  }

  lemma SameHoldings(s: Store, a: Store, fold: Folding, game: string, name: string)
    requires a.saves == s.saves
    ensures Held(a, game) == Held(s, game) && Named(fold, a, game, name) == Named(fold, s, game, name)
  {
  }

  lemma UpdateAlike(s: Store, a: Store, session: Session, game: string, now: int)
    requires Agree(s, a, game) && session.id == game
    ensures var (t, r), (b, q) := Update(s, session, now), Update(a, session, now);
            r == q && Agree(t, b, game) && OnlyOn(s, t, game) && OnlyOn(a, b, game)
  {
  }

  lemma PlayAlike(w: World, s: Store, a: Store, user: string, game: string, command: string, seed: nat, now: int)
    requires Agree(s, a, game)
    ensures Alike(s, a, game, ServePlay(w, s, user, game, command, seed, now),
                  ServePlay(w, a, user, game, command, seed, now))
  {
    var r := LoadToPlay(w, s, user, game);
    if r.Ok? {
      var o := RunTurn(w, r.value.storyKey, r.value.state, command, seed);
      if o.Done? { UpdateAlike(s, a, Played(r.value, command, o.result), game, now); }
    }
  }

  lemma RestartAlike(w: World, s: Store, a: Store, user: string, game: string, seed: nat, now: int)
    requires Agree(s, a, game)
    ensures Alike(s, a, game, ServeRestart(w, s, user, game, seed, now), ServeRestart(w, a, user, game, seed, now))
  {
    var r := LoadToRestart(w, s, user, game);
    if r.Ok? {
      var o := w.start(r.value.storyKey, seed);
      if o.Done? { UpdateAlike(s, a, Restarted(r.value, o.result), game, now); }
    }
  }

  lemma CreateSaveAlike(fold: Folding, s: Store, a: Store, snapshot: Snapshot, game: string, now: int)
    requires Agree(s, a, game) && snapshot.gameID == game
    ensures var (t, r), (b, q) := CreateSave(fold, s, snapshot, now), CreateSave(fold, a, snapshot, now);
            r == q && Agree(t, b, game) && t.sessions == s.sessions && b.sessions == a.sessions
  {
    SameHoldings(s, a, fold, game, snapshot.name);
  }

  lemma SaveAlike(w: World, s: Store, a: Store, user: string, game: string, name: string, echo: string, now: int)
    requires Agree(s, a, game)
    ensures Alike(s, a, game, ServeSave(w, s, user, game, name, echo, now),
                  ServeSave(w, a, user, game, name, echo, now))
  {
    var r := LoadToSave(s, user, game);
    if r.Ok? {
      CreateSaveAlike(w.fold, s, a, SnapshotOf(r.value, name), game, now);
      var (t, c) := CreateSave(w.fold, s, SnapshotOf(r.value, name), now);
      if c.Ok? {
        UpdateAlike(t, CreateSave(w.fold, a, SnapshotOf(r.value, name), now).0,
                    SavedNoted(w, r.value, c.value.0.name, echo, c.value.1), game, now);
      }
    }
  }

  lemma RestoreAlike(w: World, s: Store, a: Store, user: string, game: string, save: string, echo: string, now: int)
    requires Agree(s, a, game)
    ensures Alike(s, a, game, ServeRestore(w, s, user, game, save, echo, now),
                  ServeRestore(w, a, user, game, save, echo, now))
  {
    SameHoldings(s, a, w.fold, game, "");
    var r := Load(s, user, game);
    if r.Ok? {
      var c := SnapshotToRestore(s, r.value, user, game, save);
      if c.Ok? { UpdateAlike(s, a, Restored(w, r.value, c.value, echo), game, now); }
    }
  }

  lemma DeleteAlike(s: Store, a: Store, user: string, game: string)
    requires Agree(s, a, game)
    ensures var (t, r), (b, q) := Delete(s, user, game), Delete(a, user, game);
            r == q && Agree(t, b, game) && OnlyOn(s, t, game) && OnlyOn(a, b, game)
  {
    SameHoldings(s, a, name => name, game, "");
  }

  lemma DeleteSaveAlike(s: Store, a: Store, user: string, game: string, save: string)
    requires Agree(s, a, game)
    ensures var (t, r), (b, q) := DeleteSave(s, user, game, save), DeleteSave(a, user, game, save);
            r == q && Agree(t, b, game) && OnlyOn(s, t, game) && OnlyOn(a, b, game)
  {
    SameHoldings(s, a, name => name, game, "");
  }

  /** Any operation on a game. */
  lemma ServeAlike(w: World, s: Store, a: Store, user: string, game: string, op: Op, seed: nat, now: int)
    requires Agree(s, a, game)
    ensures Alike(s, a, game, ServeOp(w, s, user, game, op, seed, now), ServeOp(w, a, user, game, op, seed, now))
  {
    match op
    case PlayOp(command) => PlayAlike(w, s, a, user, game, command, seed, now);
    case RestartOp => RestartAlike(w, s, a, user, game, seed, now);
    case SaveOp(name, echo) => SaveAlike(w, s, a, user, game, name, echo, now);
    case RestoreOp(save, echo) => RestoreAlike(w, s, a, user, game, save, echo, now);
    case RestoreNamedOp(name, echo) =>
      SameHoldings(s, a, w.fold, game, name);
      var f := FindSave(w, s, user, game, name);
      if f.Ok? { RestoreAlike(w, s, a, user, game, f.value, echo, now); }
    case DeleteOp => DeleteAlike(s, a, user, game);
    case DeleteSaveOp(save) => DeleteSaveAlike(s, a, user, game, save);
  }
}
