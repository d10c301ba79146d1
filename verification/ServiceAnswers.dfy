/** What each request is answered with and leaves in the store, from the records before it to the records after it,
    with every refusal in the order it is looked for. */
module ServiceAnswers {
  import opened Text
  import opened GameStore
  import opened Transcript
  import opened Service
  import opened StoreAnswers

  /** The game's session is now `next`, stamped `now`; everything else is as it was. */
  ghost predicate Rewrites(s: Store, t: Store, next: Session, now: int) {
    && next.id in s.sessions && next.id in t.sessions && t.sessions[next.id] == next
    && next.id in t.updated && t.updated[next.id] == now
    && OtherGamesKept(s, t, next.id) && SavesKept(s, t) && t.nextID == s.nextID
  }

  ghost predicate Refuses(s: Store, served: (Store, Reply), error: Error) {
    served == (s, Refused(error))
  }

  predicate NotTheirs(s: Store, user: string, game: string) {
    game !in s.sessions || s.sessions[game].userID != user
  }

  lemma PlayIsRefused(w: World, s: Store, user: string, game: string, command: string, seed: nat, now: int)
    requires Good(w, s)
    ensures var served := Serve(w, s, On(user, game, PlayOp(command)), seed, now);
            && (user == "" ==> Refuses(s, served, NoUser))
            && (user != "" && NotTheirs(s, user, game) ==> Refuses(s, served, SessionNotFound))
            && (user != "" && !NotTheirs(s, user, game) ==>
                  if s.sessions[game].halted then Refuses(s, served, GameOver)
                  else if s.sessions[game].storyKey !in w.stories.Values then Refuses(s, served, StoryUnavailable)
                  else |command| > 256 ==> Refuses(s, served, EngineFailed))
  {
  }

  /** A turn hands the engine the game's own state and the command as typed; what comes back is appended to the screen
      and stored at the next turn and version. */
  lemma PlayAnswers(w: World, s: Store, user: string, game: string, command: string, seed: nat, now: int)
    requires Good(w, s) && user != "" && !NotTheirs(s, user, game) && |command| <= 256
    requires !s.sessions[game].halted && s.sessions[game].storyKey in w.stories.Values
    ensures var served := Serve(w, s, On(user, game, PlayOp(command)), seed, now);
            var base := s.sessions[game];
            match w.turn(base.storyKey, base.state, command, seed)
            case Failed => Refuses(s, served, EngineFailed)
            case Done(result) =>
              var screen := Trim(base.transcript + command + "\n" + result.output, 65536);
              var next := Session(game, user, base.storyKey, result.state, screen, result.status, base.turn + 1,
                                  base.version + 1, result.halted);
              served.1 == Answered(next) && Rewrites(s, served.0, next, now)
  {
    var base := s.sessions[game];
    assert SessionOk(s, game) && Alive(base);
    var o := w.turn(base.storyKey, base.state, command, seed);
    if o.Done? {
      ExchangeIs(base.transcript, command, o.result.output);
      UpdateAnswers(s, Played(base, command, o.result), now);
    }
  }

  /** In whatever store: a turn with no state to play on from, or with too long a command, never reaches the engine. */
  lemma EngineIsNotAsked(w: World, s: Store, user: string, game: string, command: string, seed: nat, now: int)
    requires user != "" && !NotTheirs(s, user, game)
    requires !s.sessions[game].halted && s.sessions[game].storyKey in w.stories.Values
    requires s.sessions[game].state == [] || |command| > 256
    ensures Refuses(s, Serve(w, s, On(user, game, PlayOp(command)), seed, now), EngineFailed)
  {
  }

  lemma ExchangeIs(t: string, command: string, output: string)
    ensures t + Exchange(command, output) == t + command + "\n" + output
  {
  }

  /** A restart starts the game's own story, over or not, and stores the opening at turn nought. */
  lemma RestartAnswers(w: World, s: Store, user: string, game: string, seed: nat, now: int)
    requires Good(w, s)
    ensures var served := Serve(w, s, On(user, game, RestartOp), seed, now);
            if user == "" then Refuses(s, served, NoUser)
            else if NotTheirs(s, user, game) then Refuses(s, served, SessionNotFound)
            else if s.sessions[game].storyKey !in w.stories.Values then Refuses(s, served, StoryUnavailable)
            else
              var base := s.sessions[game];
              match w.start(base.storyKey, seed)
              case Failed => Refuses(s, served, EngineFailed)
              case Done(result) =>
                var next := Session(game, user, base.storyKey, result.state, result.output, result.status, 0,
                                    base.version + 1, result.halted);
                served.1 == Answered(next) && Rewrites(s, served.0, next, now)
  {
    if user != "" && Owns(s, user, game) { assert SessionOk(s, game); }
  }

  /** A new game is stored under a number never used before, at version one, as the story opened. */
  lemma NewGameAnswers(w: World, s: Store, user: string, story: string, seed: nat, now: int)
    requires Good(w, s)
    ensures var served := Serve(w, s, NewGame(user, story), seed, now);
            if user == "" then Refuses(s, served, NoUser)
            else if story !in w.stories then Refuses(s, served, StoryUnavailable)
            else
              match w.start(w.stories[story], seed)
              case Failed => Refuses(s, served, EngineFailed)
              case Done(result) =>
                && served.1.Answered?
                && var (t, id) := (served.0, served.1.session.id);
                   && AllDigits(id) && Value(id) == s.nextID + 1 == t.nextID && id !in s.sessions
                   && served.1.session == Session(id, user, w.stories[story], result.state, result.output,
                                                  result.status, 0, 1, result.halted)
                   && id in t.sessions && t.sessions[id] == served.1.session && id in t.updated && t.updated[id] == now
                   && OtherGamesKept(s, t, id) && SavesKept(s, t)
  {
    if user != "" && story in w.stories && w.start(w.stories[story], seed).Done? {
      CreateAnswers(w.fold, s, Opening(user, w.stories[story], w.start(w.stories[story], seed).result), now);
    }
  }

  /** What a save of the game under that name looks like. */
  function Recorded(base: Session, id: string, name: string, now: int): Snapshot {
    Snapshot(id, base.userID, base.id, name, base.storyKey, base.state, base.transcript, base.status, base.turn, now)
  }

  /** A save records the game as it stands and tells so on the screen; the game goes on otherwise unchanged. */
  ghost predicate Saves(w: World, s: Store, served: (Store, Reply), base: Session, id: string, name: string,
                        echo: string, replaced: bool, now: int) {
    var notice := "Saved as " + w.quote(name) + (if replaced then ", replacing the earlier one." else ".");
    var next := base.(transcript := Trim(base.transcript + echo + "\n[" + notice + "]\n\n>", 65536),
                     version := base.version + 1);
    var t := served.0;
    && served.1 == SavedAs(next, Save(id, name, base.turn, now), replaced)
    && id in t.saves && t.saves[id] == Recorded(base, id, name, now) && OtherSavesKept(s, t, id)
    && base.id in t.sessions && t.sessions[base.id] == next && base.id in t.updated && t.updated[base.id] == now
    && OtherGamesKept(s, t, base.id) && t.nextID == s.nextID
  }

  lemma SaveIsRefused(w: World, s: Store, user: string, game: string, name: string, echo: string, seed: nat, now: int)
    requires Good(w, s)
    ensures var served := Serve(w, s, On(user, game, SaveOp(name, echo)), seed, now);
            && (user == "" ==> Refuses(s, served, NoUser))
            && (user != "" && NotTheirs(s, user, game) ==> Refuses(s, served, SessionNotFound))
            && (user != "" && !NotTheirs(s, user, game) && s.sessions[game].state == [] ==>
                  Refuses(s, served, GameOver))
  {
  }

  lemma NoteAnswers(w: World, t: Store, base: Session, name: string, echo: string, replaced: bool, now: int)
    requires base.id in t.sessions && t.sessions[base.id] == base
    ensures var notice := "Saved as " + w.quote(name) + (if replaced then ", replacing the earlier one." else ".");
            var (v, u) := Update(t, SavedNoted(w, base, name, echo, replaced), now);
            && u == Ok(base.(transcript := Trim(base.transcript + echo + "\n[" + notice + "]\n\n>", 65536),
                             version := base.version + 1))
            && Rewrites(t, v, u.value, now)
  {
    NoticeIs(base.transcript, echo, SavedNotice(w, name, replaced));
    SavedNoticeIs(w, name, replaced);
    UpdateAnswers(t, SavedNoted(w, base, name, echo, replaced), now);
  }

  lemma SaveGoesThrough(w: World, s: Store, user: string, game: string, name: string, echo: string, seed: nat,
                        now: int, id: string, replaced: bool)
    requires Good(w, s) && user != "" && !NotTheirs(s, user, game) && s.sessions[game].state != []
    requires CreateSave(w.fold, s, SnapshotOf(s.sessions[game], name), now).1
             == Ok((Save(id, name, s.sessions[game].turn, now), replaced))
    ensures var served := Serve(w, s, On(user, game, SaveOp(name, echo)), seed, now);
            Saves(w, s, served, s.sessions[game], id, name, echo, replaced, now)
            && served.0.nextSave == CreateSave(w.fold, s, SnapshotOf(s.sessions[game], name), now).0.nextSave
  {
    assert SessionOk(s, game);
    var base := s.sessions[game];
    var save := Save(id, name, base.turn, now);
    var (t, c) := CreateSave(w.fold, s, SnapshotOf(base, name), now);
    RecordIs(w, s, base, name, now);
    NoteAnswers(w, t, base, name, echo, replaced, now);
    var (v, u) := Update(t, SavedNoted(w, base, name, echo, replaced), now);
    RecordedAndNoted(w, s, t, v, base, save, u.value, echo, replaced, now);
    SaveUnfolds(w, s, t, v, user, game, base, save, u.value, echo, replaced, now);
  }

  lemma RecordIs(w: World, s: Store, base: Session, name: string, now: int)
    ensures var (t, r) := CreateSave(w.fold, s, SnapshotOf(base, name), now);
            r.Ok? ==>
              var id := r.value.0.id;
              && id in t.saves && t.saves[id] == Recorded(base, id, name, now)
              && OtherSavesKept(s, t, id) && GamesKept(s, t)
  {
    CreateSaveWrites(w.fold, s, SnapshotOf(base, name), now);
  }

  lemma RecordedAndNoted(w: World, s: Store, t: Store, v: Store, base: Session, save: Save, next: Session,
                         echo: string, replaced: bool, now: int)
    requires save.id in t.saves && t.saves[save.id] == Recorded(base, save.id, save.name, now)
    requires OtherSavesKept(s, t, save.id) && GamesKept(s, t) && Rewrites(t, v, next, now)
    requires save == Save(save.id, save.name, base.turn, now)
    requires var ending := if replaced then ", replacing the earlier one." else ".";
             var notice := "Saved as " + w.quote(save.name) + ending;
             next == base.(transcript := Trim(base.transcript + echo + "\n[" + notice + "]\n\n>", 65536),
                           version := base.version + 1)
    ensures Saves(w, s, (v, SavedAs(next, save, replaced)), base, save.id, save.name, echo, replaced, now)
  {
  }

  lemma SaveUnfolds(w: World, s: Store, t: Store, v: Store, user: string, game: string, base: Session, save: Save,
                    next: Session, echo: string, replaced: bool, now: int)
    requires LoadToSave(s, user, game) == Ok(base)
    requires CreateSave(w.fold, s, SnapshotOf(base, save.name), now) == (t, Ok((save, replaced)))
    requires Update(t, SavedNoted(w, base, save.name, echo, replaced), now) == (v, Ok(next))
    ensures ServeSave(w, s, user, game, save.name, echo, now) == (v, SavedAs(next, save, replaced))
  {
  }

  lemma NoticeIs(t: string, echo: string, message: string)
    ensures t + Notice(echo, message) == t + echo + "\n[" + message + "]\n\n>"
  {
  }

  lemma SavedNoticeIs(w: World, name: string, replaced: bool)
    ensures SavedNotice(w, name, replaced)
            == "Saved as " + w.quote(name) + (if replaced then ", replacing the earlier one." else ".")
  {
  }

  /** A save called like one the game has, up to case, replaces that one, however many there are. */
  lemma SaveReplaces(w: World, s: Store, user: string, game: string, name: string, echo: string, seed: nat, now: int,
                     id: string)
    requires Good(w, s) && user != "" && !NotTheirs(s, user, game) && s.sessions[game].state != []
    requires SavedUnder(w.fold, s, game, name, id)
    ensures var served := Serve(w, s, On(user, game, SaveOp(name, echo)), seed, now);
            Saves(w, s, served, s.sessions[game], id, name, echo, true, now) && served.0.nextSave == s.nextSave
  {
    assert SessionOk(s, game);
    SameNameReplaces(w.fold, s, SnapshotOf(s.sessions[game], name), now, id);
    SaveGoesThrough(w, s, user, game, name, echo, seed, now, id, true);
  }

  /** Saving under a new name takes the next number, exactly while the game holds fewer than twenty. */
  lemma SaveAddsOne(w: World, s: Store, user: string, game: string, name: string, echo: string, seed: nat, now: int)
    requires Good(w, s) && user != "" && !NotTheirs(s, user, game) && s.sessions[game].state != []
    requires forall id :: !SavedUnder(w.fold, s, game, name, id)
    ensures var served := Serve(w, s, On(user, game, SaveOp(name, echo)), seed, now);
            if |set id | id in s.saves && s.saves[id].gameID == game| >= 20 then Refuses(s, served, TooManySaves)
            else
              && served.1.SavedAs?
              && var id := served.1.save.id;
                 && AllDigits(id) && Value(id) == s.nextSave + 1 == served.0.nextSave && id !in s.saves
                 && Saves(w, s, served, s.sessions[game], id, name, echo, false, now)
  {
    assert SessionOk(s, game);
    var snapshot := SnapshotOf(s.sessions[game], name);
    NewNameNeedsRoom(w.fold, s, snapshot, now);
    CreateSaveWrites(w.fold, s, snapshot, now);
    var r := CreateSave(w.fold, s, snapshot, now).1;
    if r.Ok? {
      SaveGoesThrough(w, s, user, game, name, echo, seed, now, r.value.0.id, false);
    }
  }

  lemma RestoreIsRefused(w: World, s: Store, user: string, game: string, save: string, echo: string, seed: nat,
                         now: int)
    requires Good(w, s)
    ensures var served := Serve(w, s, On(user, game, RestoreOp(save, echo)), seed, now);
            && (user == "" ==> Refuses(s, served, NoUser))
            && (user != "" && NotTheirs(s, user, game) ==> Refuses(s, served, SessionNotFound))
            && (user != "" && !NotTheirs(s, user, game) && (save !in s.saves || s.saves[save].gameID != game) ==>
                  Refuses(s, served, SaveNotFound))
  {
  }

  /** A restore puts the save's state, status, turn and screen back, with a line saying so, and un-halts the game. */
  lemma RestoreAnswers(w: World, s: Store, user: string, game: string, save: string, echo: string, seed: nat, now: int)
    requires Good(w, s) && user != "" && !NotTheirs(s, user, game)
    requires save in s.saves && s.saves[save].gameID == game
    ensures var served := Serve(w, s, On(user, game, RestoreOp(save, echo)), seed, now);
            var base, kept := s.sessions[game], s.saves[save];
            var notice := "Restored " + w.quote(kept.name) + ".";
            var screen := Trim(kept.transcript + echo + "\n[" + notice + "]\n\n>", 65536);
            var next := Session(game, user, base.storyKey, kept.state, screen, kept.status, kept.turn,
                                base.version + 1, false);
            served.1 == RestoredFrom(next, Save(save, kept.name, kept.turn, kept.createdAt))
            && Rewrites(s, served.0, next, now)
  {
    var base, kept := s.sessions[game], s.saves[save];
    assert SessionOk(s, game) && SaveOk(s, save);
    NoticeIs(kept.transcript, echo, RestoredNotice(w, kept.name));
    UpdateAnswers(s, Restored(w, base, kept, echo), now);
  }

  /** In whatever store: a save taken of another story is refused. */
  lemma OtherStoryIsRefused(w: World, s: Store, user: string, game: string, save: string, echo: string, seed: nat,
                            now: int)
    requires user != "" && !NotTheirs(s, user, game) && save in s.saves && s.saves[save].gameID == game
    requires s.saves[save].storyKey != s.sessions[game].storyKey
    ensures Refuses(s, Serve(w, s, On(user, game, RestoreOp(save, echo)), seed, now), SaveMismatch)
  {
  }

  /** A restore by name is the restore of the one save so called, up to case, or is refused. */
  lemma RestoreNamedAnswers(w: World, s: Store, user: string, game: string, name: string, echo: string, seed: nat,
                            now: int)
    requires Good(w, s)
    ensures var served := Serve(w, s, On(user, game, RestoreNamedOp(name, echo)), seed, now);
            && (user == "" ==> Refuses(s, served, NoUser))
            && (user != "" && NotTheirs(s, user, game) ==> Refuses(s, served, SessionNotFound))
            && (user != "" && !NotTheirs(s, user, game) ==>
                  && ((forall id :: !SavedUnder(w.fold, s, game, name, id)) ==> Refuses(s, served, SaveNotFound))
                  && (forall id | SavedUnder(w.fold, s, game, name, id) ::
                        served == Serve(w, s, On(user, game, RestoreOp(id, echo)), seed, now)))
  {
    NamedAreSavedUnder(w.fold, s, game, name);
  }

  /** After its owner deletes a game it is gone, its timestamp and every save of it too, and nothing else is. */
  lemma DeleteGameAnswers(w: World, s: Store, user: string, game: string, seed: nat, now: int)
    requires Good(w, s)
    ensures var served := Serve(w, s, On(user, game, DeleteOp), seed, now);
            var t := served.0;
            if user == "" then Refuses(s, served, NoUser)
            else if NotTheirs(s, user, game) then Refuses(s, served, SessionNotFound)
            else
              && served.1 == Gone
              && game !in t.sessions && game !in t.updated && OtherGamesKept(s, t, game)
              && (forall id :: id in t.saves <==> id in s.saves && s.saves[id].gameID != game)
              && (forall id | id in t.saves :: t.saves[id] == s.saves[id])
              && t.nextID == s.nextID && t.nextSave == s.nextSave
  {
    DeleteAnswers(s, user, game);
  }

  /** After its owner deletes a save that save is gone, and nothing else is. */
  lemma DeleteSaveAnswers(w: World, s: Store, user: string, game: string, save: string, seed: nat, now: int)
    requires Good(w, s)
    ensures var served := Serve(w, s, On(user, game, DeleteSaveOp(save)), seed, now);
            var t := served.0;
            if user == "" then Refuses(s, served, NoUser)
            else if NotTheirs(s, user, game) then Refuses(s, served, SessionNotFound)
            else if save !in s.saves || s.saves[save].gameID != game then Refuses(s, served, SaveNotFound)
            else
              var stored := s.saves[save];
              && served.1 == SaveGone(Save(save, stored.name, stored.turn, stored.createdAt))
              && save !in t.saves && OtherSavesKept(s, t, save) && GamesKept(s, t) && t.nextSave == s.nextSave
  {
    OneSaveAnswers(s, user, game, save);
    if save in s.saves { assert SaveOk(s, save); }
  }
}
