/** The session store as values: what every operation of internal/game/memstore.go does to the maps it
    keeps. Each operation runs under the store's mutex, so it is one step. Clock readings are parameters. */
module GameStore {
  import opened Text

  type StoryKey = nat

  /** Opaque state bytes; a nil and an empty slice are both the empty sequence. */
  type Bytes = seq<Byte>

  datatype StatusLine = StatusLine(available: bool, name: string, timeGame: bool,
                                   score: int, moves: int, hours: nat, minutes: nat)

  datatype Session = Session(id: string, userID: string, storyKey: StoryKey, state: Bytes, transcript: string,
                             status: StatusLine, turn: nat, version: nat, halted: bool)

  datatype Snapshot = Snapshot(id: string, userID: string, gameID: string, name: string, storyKey: StoryKey,
                               state: Bytes, transcript: string, status: StatusLine, turn: nat, createdAt: int)

  datatype Save = Save(id: string, name: string, turn: nat, createdAt: int)

  datatype Summary = Summary(id: string, storyKey: StoryKey, turn: nat, halted: bool, updatedAt: int)

  datatype Error =
    | NoUser | SessionNotFound | VersionConflict | SaveNotFound | TooManySaves
    | GameOver | StoryUnavailable | SaveMismatch | EngineFailed

  type Result<+T> = Fallible<T, Error>

  const MAX_SAVES_PER_GAME: nat := 20

  datatype Store = Store(sessions: map<string, Session>, updated: map<string, int>, saves: map<string, Snapshot>,
                         nextID: nat, nextSave: nat)

  const EMPTY: Store := Store(map[], map[], map[], 0, 0)

  /** Upper and lower case make no difference to a save's name: strings.EqualFold holds exactly when a canonical
      folding of the two names agrees. The folding itself is a parameter. */
  type Folding = string -> string

  predicate SameSaveName(fold: Folding, a: string, b: string) { fold(a) == fold(b) }

  // ----- the operations -----

  function Owns(s: Store, user: string, game: string): bool {
    game in s.sessions && s.sessions[game].userID == user
  }

  function Create(s: Store, session: Session, now: int): (Store, Result<Session>) {
    if session.userID == "" then (s, Err(NoUser))
    else
      var id := Format(s.nextID + 1);
      var stored := session.(id := id, version := 1);
      (s.(nextID := s.nextID + 1, sessions := s.sessions[id := stored], updated := s.updated[id := now]),
       Ok(stored))
  }

  function Load(s: Store, user: string, id: string): Result<Session> {
    if Owns(s, user, id) then Ok(s.sessions[id]) else Err(SessionNotFound)
  }

  function Update(s: Store, session: Session, now: int): (Store, Result<Session>) {
    if !Owns(s, session.userID, session.id) then (s, Err(SessionNotFound))
    else if s.sessions[session.id].version != session.version then (s, Err(VersionConflict))
    else
      var stored := session.(version := session.version + 1);
      (s.(sessions := s.sessions[session.id := stored], updated := s.updated[session.id := now]), Ok(stored))
  }

  /** The user's games; the order of the listing is left out. */
  function List(s: Store, user: string): set<Summary> {
    set id | id in s.sessions && s.sessions[id].userID == user :: SummaryOf(s, id)
  }

  function SummaryOf(s: Store, id: string): Summary
    requires id in s.sessions
  {
    var session := s.sessions[id];
    Summary(id, session.storyKey, session.turn, session.halted, if id in s.updated then s.updated[id] else 0)
  }

  /** The saves a game holds. */
  function Held(s: Store, game: string): set<string> {
    set id | id in s.saves && s.saves[id].gameID == game
  }

  function Delete(s: Store, user: string, id: string): (Store, Result<()>) {
    if !Owns(s, user, id) then (s, Err(SessionNotFound))
    else (s.(sessions := s.sessions - {id}, updated := s.updated - {id}, saves := s.saves - Held(s, id)), Ok(()))
  }

  /** The saves of the game whose name is the same as `name`. */
  function Named(fold: Folding, s: Store, game: string, name: string): set<string> {
    set id | id in s.saves && s.saves[id].gameID == game && SameSaveName(fold, s.saves[id].name, name)
  }

  /** Whichever one the iteration meets first. */
  ghost function Pick(ids: set<string>): (id: string)
    requires ids != {}
    ensures id in ids
  {
    var id :| id in ids; id
  }

  function Summarize(snapshot: Snapshot): Save {
    Save(snapshot.id, snapshot.name, snapshot.turn, snapshot.createdAt)
  }

  ghost function CreateSave(fold: Folding, s: Store, snapshot: Snapshot, now: int): (Store, Result<(Save, bool)>) {
    var named := Named(fold, s, snapshot.gameID, snapshot.name);
    if !Owns(s, snapshot.userID, snapshot.gameID) then (s, Err(SessionNotFound))
    else if named != {} then
      var stored := snapshot.(id := Pick(named), createdAt := now);
      (s.(saves := s.saves[stored.id := stored]), Ok((Summarize(stored), true)))
    else if |Held(s, snapshot.gameID)| >= MAX_SAVES_PER_GAME then (s, Err(TooManySaves))
    else
      var stored := snapshot.(id := Format(s.nextSave + 1), createdAt := now);
      (s.(nextSave := s.nextSave + 1, saves := s.saves[stored.id := stored]), Ok((Summarize(stored), false)))
  }

  /** The game's saves; the order of the listing is left out. */
  function Saves(s: Store, user: string, game: string): Result<set<Save>> {
    if Owns(s, user, game) then Ok(set id | id in Held(s, game) :: Summarize(s.saves[id]))
    else Err(SessionNotFound)
  }

  function LoadSave(s: Store, user: string, game: string, save: string): Result<Snapshot> {
    if !Owns(s, user, game) then Err(SessionNotFound)
    else if save !in Held(s, game) then Err(SaveNotFound)
    else Ok(s.saves[save])
  }

  function DeleteSave(s: Store, user: string, game: string, save: string): (Store, Result<Save>) {
    if !Owns(s, user, game) then (s, Err(SessionNotFound))
    else if save !in Held(s, game) then (s, Err(SaveNotFound))
    else (s.(saves := s.saves - {save}), Ok(Summarize(s.saves[save])))
  }

  // ----- what every operation keeps -----

  /** An identifier the counter has already passed. */
  predicate Issued(id: string, counter: nat) { AllDigits(id) && Value(id) <= counter }

  lemma FreshID(counter: nat)
    ensures !Issued(Format(counter + 1), counter)
    ensures Issued(Format(counter + 1), counter + 1)
  {
    ValueOfFormat(counter + 1);
  }

  ghost predicate SessionOk(s: Store, id: string)
    requires id in s.sessions
  {
    s.sessions[id].id == id && s.sessions[id].userID != "" && s.sessions[id].version >= 1 && Issued(id, s.nextID)
  }

  /** A save belongs to an existing game of the same owner. */
  ghost predicate SaveOk(s: Store, id: string)
    requires id in s.saves
  {
    var save := s.saves[id];
    save.id == id && Issued(id, s.nextSave) && Owns(s, save.userID, save.gameID)
  }

  ghost predicate DistinctNames(fold: Folding, s: Store) {
    forall a, b | a in s.saves && b in s.saves
                  && s.saves[a].gameID == s.saves[b].gameID
                  && SameSaveName(fold, s.saves[a].name, s.saves[b].name) :: a == b
  }

  ghost predicate WellFormed(fold: Folding, s: Store) {
    && s.updated.Keys == s.sessions.Keys
    && (forall id | id in s.sessions :: SessionOk(s, id))
    && (forall id | id in s.saves :: SaveOk(s, id))
    && DistinctNames(fold, s)
    && (forall game: string :: |Held(s, game)| <= MAX_SAVES_PER_GAME)
  }

  /** Iteration order does not matter: a game holds at most one save under a name. */
  lemma AtMostOneNamed(fold: Folding, s: Store, game: string, name: string, id: string)
    requires DistinctNames(fold, s) && id in Named(fold, s, game, name)
    ensures Named(fold, s, game, name) == {id} && Pick(Named(fold, s, game, name)) == id
  {
  }

  /** Fewer sessions never strand a save, and fewer saves keep every bound. */
  lemma FewerSaves(fold: Folding, s: Store, t: Store)
    requires WellFormed(fold, s) && t.sessions.Keys <= s.sessions.Keys && t.updated.Keys == t.sessions.Keys
    requires forall id | id in t.sessions :: t.sessions[id] == s.sessions[id]
    requires t.saves.Keys <= s.saves.Keys && t.nextID == s.nextID && t.nextSave == s.nextSave
    requires forall id | id in t.saves :: t.saves[id] == s.saves[id] && t.saves[id].gameID in t.sessions
    ensures WellFormed(fold, t)
  {
    forall id | id in t.sessions ensures SessionOk(t, id) { assert SessionOk(s, id); }
    forall id | id in t.saves ensures SaveOk(t, id) { assert SaveOk(s, id); }
    forall game: string ensures |Held(t, game)| <= MAX_SAVES_PER_GAME {
      SubsetSize(Held(t, game), Held(s, game));
    }
  }

  lemma CreateKeepsWellFormed(fold: Folding, s: Store, session: Session, now: int)
    requires WellFormed(fold, s)
    ensures WellFormed(fold, Create(s, session, now).0)
    ensures Create(s, session, now).1.Ok? ==> Create(s, session, now).1.value.id !in s.sessions
  {
    var t := Create(s, session, now).0;
    if session.userID != "" {
      FreshID(s.nextID);
      var id := Format(s.nextID + 1);
      assert forall i | i in s.sessions :: SessionOk(s, i);
      assert id !in s.sessions;
      forall i | i in t.sessions ensures SessionOk(t, i) { if i != id { assert SessionOk(s, i); } }
      forall i | i in t.saves ensures SaveOk(t, i) { assert SaveOk(s, i); }
      forall game: string ensures |Held(t, game)| <= MAX_SAVES_PER_GAME { assert Held(t, game) == Held(s, game); }
    }
  }

  lemma UpdateKeepsWellFormed(fold: Folding, s: Store, session: Session, now: int)
    requires WellFormed(fold, s)
    ensures WellFormed(fold, Update(s, session, now).0)
  {
    var (t, r) := Update(s, session, now);
    if r.Ok? {
      forall i | i in t.sessions ensures SessionOk(t, i) { assert SessionOk(s, i); }
      forall i | i in t.saves ensures SaveOk(t, i) { assert SaveOk(s, i); }
      forall game: string ensures |Held(t, game)| <= MAX_SAVES_PER_GAME { assert Held(t, game) == Held(s, game); }
    }
  }

  lemma DeleteKeepsWellFormed(fold: Folding, s: Store, user: string, id: string)
    requires WellFormed(fold, s)
    ensures WellFormed(fold, Delete(s, user, id).0)
  {
    if Owns(s, user, id) {
      var t := Delete(s, user, id).0;
      forall i | i in t.saves ensures t.saves[i].gameID in t.sessions {
        assert SaveOk(s, i) && i !in Held(s, id);
      }
      FewerSaves(fold, s, t);
    }
  }

  lemma DeleteSaveKeepsWellFormed(fold: Folding, s: Store, user: string, game: string, save: string)
    requires WellFormed(fold, s)
    ensures WellFormed(fold, DeleteSave(s, user, game, save).0)
  {
    if DeleteSave(s, user, game, save).1.Ok? {
      var t := DeleteSave(s, user, game, save).0;
      forall i | i in t.saves ensures t.saves[i].gameID in t.sessions { assert SaveOk(s, i); }
      FewerSaves(fold, s, t);
    }
  }

  function PutSave(s: Store, save: Snapshot, counter: nat): Store {
    s.(nextSave := counter, saves := s.saves[save.id := save])
  }

  /** A successful save puts one record and moves the save counter, nothing else. */
  lemma CreateSavePuts(fold: Folding, s: Store, snapshot: Snapshot, now: int)
    ensures var (t, r) := CreateSave(fold, s, snapshot, now);
            t == if r.Ok? then PutSave(s, snapshot.(id := r.value.0.id, createdAt := now), t.nextSave) else s
  {
  }

  lemma PutSaveKeepsNames(fold: Folding, s: Store, save: Snapshot, counter: nat)
    requires DistinctNames(fold, s) && Named(fold, s, save.gameID, save.name) <= {save.id}
    ensures DistinctNames(fold, PutSave(s, save, counter))
  {
    assert forall id | id in s.saves && id != save.id :: id !in Named(fold, s, save.gameID, save.name);
  }

  lemma PutSaveKeepsCounts(s: Store, save: Snapshot, counter: nat, game: string)
    requires |Held(s, game)| <= MAX_SAVES_PER_GAME
    requires save.id in s.saves ==> s.saves[save.id].gameID == save.gameID
    requires |Held(s, save.gameID) + {save.id}| <= MAX_SAVES_PER_GAME
    ensures |Held(PutSave(s, save, counter), game)| <= MAX_SAVES_PER_GAME
  {
    var t := PutSave(s, save, counter);
    if game == save.gameID {
      assert Held(t, game) == Held(s, game) + {save.id};
    } else {
      assert Held(t, game) == Held(s, game);
    }
  }

  lemma PutSaveKeepsWellFormed(fold: Folding, s: Store, save: Snapshot, counter: nat)
    requires WellFormed(fold, s) && Owns(s, save.userID, save.gameID)
    requires Named(fold, s, save.gameID, save.name) <= {save.id}
    requires save.id in s.saves ==> s.saves[save.id].gameID == save.gameID
    requires |Held(s, save.gameID) + {save.id}| <= MAX_SAVES_PER_GAME
    requires s.nextSave <= counter && Issued(save.id, counter)
    ensures WellFormed(fold, PutSave(s, save, counter))
  {
    var t := PutSave(s, save, counter);
    PutSaveKeepsNames(fold, s, save, counter);
    forall i | i in t.sessions ensures SessionOk(t, i) { assert SessionOk(s, i); }
    forall i | i in t.saves ensures SaveOk(t, i) {
      if i != save.id { assert SaveOk(s, i); }
    }
    forall game: string ensures |Held(t, game)| <= MAX_SAVES_PER_GAME {
      PutSaveKeepsCounts(s, save, counter, game);
    }
  }

  lemma ReplaceKeepsWellFormed(fold: Folding, s: Store, snapshot: Snapshot, now: int, id: string)
    requires WellFormed(fold, s) && Owns(s, snapshot.userID, snapshot.gameID)
    requires id in Named(fold, s, snapshot.gameID, snapshot.name)
    ensures WellFormed(fold, PutSave(s, snapshot.(id := id, createdAt := now), s.nextSave))
    ensures Pick(Named(fold, s, snapshot.gameID, snapshot.name)) == id
  {
    var game := snapshot.gameID;
    AtMostOneNamed(fold, s, game, snapshot.name, id);
    assert SaveOk(s, id);
    assert Held(s, game) + {id} == Held(s, game);
    PutSaveKeepsWellFormed(fold, s, snapshot.(id := id, createdAt := now), s.nextSave);
  }

  lemma AddKeepsWellFormed(fold: Folding, s: Store, snapshot: Snapshot, now: int)
    requires WellFormed(fold, s) && Owns(s, snapshot.userID, snapshot.gameID)
    requires Named(fold, s, snapshot.gameID, snapshot.name) == {} && |Held(s, snapshot.gameID)| < MAX_SAVES_PER_GAME
    ensures Format(s.nextSave + 1) !in s.saves
    ensures WellFormed(fold, PutSave(s, snapshot.(id := Format(s.nextSave + 1), createdAt := now), s.nextSave + 1))
  {
    var id := Format(s.nextSave + 1);
    FreshID(s.nextSave);
    assert forall i | i in s.saves :: SaveOk(s, i);
    PutSaveKeepsWellFormed(fold, s, snapshot.(id := id, createdAt := now), s.nextSave + 1);
  }

  lemma CreateSaveKeepsWellFormed(fold: Folding, s: Store, snapshot: Snapshot, now: int)
    requires WellFormed(fold, s)
    ensures WellFormed(fold, CreateSave(fold, s, snapshot, now).0)
    ensures var r := CreateSave(fold, s, snapshot, now).1;
            r.Ok? ==> (r.value.1 <==> r.value.0.id in s.saves)
  {
    var named := Named(fold, s, snapshot.gameID, snapshot.name);
    if Owns(s, snapshot.userID, snapshot.gameID) {
      if named != {} {
        ReplaceKeepsWellFormed(fold, s, snapshot, now, Pick(named));
      } else if |Held(s, snapshot.gameID)| < MAX_SAVES_PER_GAME {
        AddKeepsWellFormed(fold, s, snapshot, now);
      }
    }
  }
}
