/** What every operation of the session store answers and leaves, told in terms of the records before and after. */
module StoreAnswers {
  import opened Text
  import opened GameStore

  /** Every game but `id`, and every game's timestamp, is as it was. */
  ghost predicate OtherGamesKept(s: Store, t: Store, id: string) {
    && t.sessions - {id} == s.sessions - {id}
    && t.updated - {id} == s.updated - {id}
  }

  ghost predicate OtherSavesKept(s: Store, t: Store, id: string) {
    t.saves - {id} == s.saves - {id}
  }

  ghost predicate GamesKept(s: Store, t: Store) {
    t.sessions == s.sessions && t.updated == s.updated && t.nextID == s.nextID
  }

  ghost predicate SavesKept(s: Store, t: Store) { t.saves == s.saves && t.nextSave == s.nextSave }

  /** A new game is numbered by the next number, and is stored at version one as it was given. */
  lemma CreateAnswers(fold: Folding, s: Store, session: Session, now: int)
    requires WellFormed(fold, s)
    ensures var (t, r) := Create(s, session, now);
            if session.userID == "" then t == s && r == Err(NoUser)
            else
              && r.Ok?
              && var id := r.value.id;
                 && AllDigits(id) && Value(id) == s.nextID + 1 == t.nextID && id !in s.sessions
                 && r.value == session.(id := id, version := 1)
                 && id in t.sessions && t.sessions[id] == r.value && id in t.updated && t.updated[id] == now
                 && OtherGamesKept(s, t, id) && SavesKept(s, t)
  {
    CreateKeepsWellFormed(fold, s, session, now);
    ValueOfFormat(s.nextID + 1);
  }

  /** A write goes through exactly when the game is the carrier's own and at the version carried. */
  lemma UpdateAnswers(s: Store, session: Session, now: int)
    ensures var (t, r) := Update(s, session, now);
            var id := session.id;
            if id !in s.sessions || s.sessions[id].userID != session.userID then t == s && r == Err(SessionNotFound)
            else if s.sessions[id].version != session.version then t == s && r == Err(VersionConflict)
            else
              && r == Ok(session.(version := s.sessions[id].version + 1))
              && id in t.sessions && t.sessions[id] == r.value && id in t.updated && t.updated[id] == now
              && OtherGamesKept(s, t, id) && SavesKept(s, t) && t.nextID == s.nextID
  {
  }

  /** The listing tells of each of the user's games, and of no others, what is stored about it. */
  lemma ListAnswers(fold: Folding, s: Store, user: string, x: Summary)
    requires WellFormed(fold, s)
    ensures x in List(s, user) <==>
              && x.id in s.sessions && s.sessions[x.id].userID == user
              && x.storyKey == s.sessions[x.id].storyKey && x.turn == s.sessions[x.id].turn
              && x.halted == s.sessions[x.id].halted && x.updatedAt == s.updated[x.id]
  {
    if x.id in s.sessions { assert x.id in s.updated; }
  }

  /** Deleting a game takes it, its timestamp and every save of it, and nothing else. */
  lemma DeleteAnswers(s: Store, user: string, game: string)
    ensures var (t, r) := Delete(s, user, game);
            if game !in s.sessions || s.sessions[game].userID != user then t == s && r == Err(SessionNotFound)
            else
              && r == Ok(())
              && game !in t.sessions && game !in t.updated && OtherGamesKept(s, t, game)
              && t.nextID == s.nextID && t.nextSave == s.nextSave
              && (forall id :: id in t.saves <==> id in s.saves && s.saves[id].gameID != game)
              && (forall id | id in t.saves :: t.saves[id] == s.saves[id])
  {
  }

  /** The save of a game under a name, up to case. */
  ghost predicate SavedUnder(fold: Folding, s: Store, game: string, name: string, id: string) {
    id in s.saves && s.saves[id].gameID == game && fold(s.saves[id].name) == fold(name)
  }

  /** A game that is not the user's own takes no save; one record is written, carrying what was given, or none is. */
  lemma CreateSaveWrites(fold: Folding, s: Store, snapshot: Snapshot, now: int)
    ensures var (t, r) := CreateSave(fold, s, snapshot, now);
            var game := snapshot.gameID;
            && (game !in s.sessions || s.sessions[game].userID != snapshot.userID ==> r == Err(SessionNotFound))
            && (r.Err? ==> t == s)
            && (r.Ok? ==>
                  var id := r.value.0.id;
                  && id in t.saves && t.saves[id] == snapshot.(id := id, createdAt := now)
                  && r.value.0 == Save(id, snapshot.name, snapshot.turn, now)
                  && OtherSavesKept(s, t, id) && GamesKept(s, t))
  {
  }

  /** A save called like one the game has, up to case, replaces that one, however many it holds. */
  lemma SameNameReplaces(fold: Folding, s: Store, snapshot: Snapshot, now: int, id: string)
    requires WellFormed(fold, s)
    requires snapshot.gameID in s.sessions && s.sessions[snapshot.gameID].userID == snapshot.userID
    requires SavedUnder(fold, s, snapshot.gameID, snapshot.name, id)
    ensures var (t, r) := CreateSave(fold, s, snapshot, now);
            r == Ok((Save(id, snapshot.name, snapshot.turn, now), true)) && t.nextSave == s.nextSave
  {
    NamedAreSavedUnder(fold, s, snapshot.gameID, snapshot.name);
  }

  /** Under a new name a save is numbered by the next number, and goes through exactly while the game holds fewer than
      twenty. */
  lemma NewNameNeedsRoom(fold: Folding, s: Store, snapshot: Snapshot, now: int)
    requires WellFormed(fold, s)
    requires snapshot.gameID in s.sessions && s.sessions[snapshot.gameID].userID == snapshot.userID
    requires forall id :: !SavedUnder(fold, s, snapshot.gameID, snapshot.name, id)
    ensures var (t, r) := CreateSave(fold, s, snapshot, now);
            var held := set id | id in s.saves && s.saves[id].gameID == snapshot.gameID;
            if |held| >= 20 then r == Err(TooManySaves)
            else
              && r.Ok? && !r.value.1
              && var id := r.value.0.id;
                 AllDigits(id) && Value(id) == s.nextSave + 1 == t.nextSave && id !in s.saves
  {
    NamedAreSavedUnder(fold, s, snapshot.gameID, snapshot.name);
    if |Held(s, snapshot.gameID)| < MAX_SAVES_PER_GAME {
      AddKeepsWellFormed(fold, s, snapshot, now);
      ValueOfFormat(s.nextSave + 1);
    }
  }

  lemma NamedAreSavedUnder(fold: Folding, s: Store, game: string, name: string)
    requires DistinctNames(fold, s)
    ensures forall id :: id in Named(fold, s, game, name) <==> SavedUnder(fold, s, game, name, id)
    ensures forall id | SavedUnder(fold, s, game, name, id) ::
              Named(fold, s, game, name) == {id} && Pick(Named(fold, s, game, name)) == id
  {
    forall id | SavedUnder(fold, s, game, name, id)
      ensures Named(fold, s, game, name) == {id} && Pick(Named(fold, s, game, name)) == id
    {
      AtMostOneNamed(fold, s, game, name, id);
    }
  }

  /** The listing of a game's saves tells of each of them, and of no others, what is stored about it. */
  lemma SavesAnswers(fold: Folding, s: Store, user: string, game: string, x: Save)
    requires WellFormed(fold, s)
    ensures var r := Saves(s, user, game);
            if game !in s.sessions || s.sessions[game].userID != user then r == Err(SessionNotFound)
            else
              && r.Ok?
              && (x in r.value <==>
                    && x.id in s.saves && s.saves[x.id].gameID == game && x.name == s.saves[x.id].name
                    && x.turn == s.saves[x.id].turn && x.createdAt == s.saves[x.id].createdAt)
  {
    assert forall id | id in s.saves :: SaveOk(s, id);
    if Owns(s, user, game) && x.id in Held(s, game) && x == Summarize(s.saves[x.id]) {
      assert x in Saves(s, user, game).value;
    }
  }

  /** A save is read, and deleted, only by its own game's owner and only through its own game. */
  lemma OneSaveAnswers(s: Store, user: string, game: string, save: string)
    ensures var r := LoadSave(s, user, game, save);
            var (t, d) := DeleteSave(s, user, game, save);
            if game !in s.sessions || s.sessions[game].userID != user
            then r == Err(SessionNotFound) && t == s && d == Err(SessionNotFound)
            else if save !in s.saves || s.saves[save].gameID != game
            then r == Err(SaveNotFound) && t == s && d == Err(SaveNotFound)
            else
              var stored := s.saves[save];
              && r == Ok(stored) && d == Ok(Save(stored.id, stored.name, stored.turn, stored.createdAt))
              && save !in t.saves && OtherSavesKept(s, t, save) && GamesKept(s, t) && t.nextSave == s.nextSave
  {
  }
}
