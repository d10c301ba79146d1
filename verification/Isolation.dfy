/** Owner isolation of the store: what one user's calls answer and change depends only on that user's own
    games and saves (and on the identifier counters), and nobody else's calls change those. */
module Isolation {
  import opened Text
  import opened GameStore

  datatype Call =
    | Creating(session: Session)
    | Loading(id: string)
    | Updating(session: Session)
    | Listing
    | Deleting(id: string)
    | CreatingSave(snapshot: Snapshot)
    | ListingSaves(game: string)
    | LoadingSave(game: string, save: string)
    | DeletingSave(game: string, save: string)

  datatype Answer =
    | ASession(session: Result<Session>)
    | AList(games: set<Summary>)
    | ADone(done: Result<()>)
    | AWritten(written: Result<(Save, bool)>)
    | ASaves(saves: Result<set<Save>>)
    | ASnapshot(snapshot: Result<Snapshot>)
    | ASave(save: Result<Save>)

  /** One call made by `user`; records it writes carry that user. */
  ghost function Exec(fold: Folding, s: Store, user: string, call: Call, now: int): (Store, Answer) {
    match call
    case Creating(session) => var (t, r) := Create(s, session.(userID := user), now); (t, ASession(r))
    case Loading(id) => (s, ASession(Load(s, user, id)))
    case Updating(session) => var (t, r) := Update(s, session.(userID := user), now); (t, ASession(r))
    case Listing => (s, AList(List(s, user)))
    case Deleting(id) => var (t, r) := Delete(s, user, id); (t, ADone(r))
    case CreatingSave(snapshot) =>
      var (t, r) := CreateSave(fold, s, snapshot.(userID := user), now); (t, AWritten(r))
    case ListingSaves(game) => (s, ASaves(Saves(s, user, game)))
    case LoadingSave(game, save) => (s, ASnapshot(LoadSave(s, user, game, save)))
    case DeletingSave(game, save) => var (t, r) := DeleteSave(s, user, game, save); (t, ASave(r))
  }

  lemma ExecKeepsWellFormed(fold: Folding, s: Store, user: string, call: Call, now: int)
    requires WellFormed(fold, s)
    ensures WellFormed(fold, Exec(fold, s, user, call, now).0)
  {
    match call
    case Creating(session) => CreateKeepsWellFormed(fold, s, session.(userID := user), now);
    case Updating(session) => UpdateKeepsWellFormed(fold, s, session.(userID := user), now);
    case Deleting(id) => DeleteKeepsWellFormed(fold, s, user, id);
    case CreatingSave(snapshot) => CreateSaveKeepsWellFormed(fold, s, snapshot.(userID := user), now);
    case DeletingSave(game, save) => DeleteSaveKeepsWellFormed(fold, s, user, game, save);
    case _ =>
  }

  // ----- what a user can see -----

  predicate Mine(s: Store, user: string, save: string) {
    save in s.saves && s.saves[save].userID == user
  }

  /** The two stores hold the same games, the same timestamps and the same saves of `user`. */
  ghost predicate SameView(a: Store, b: Store, user: string) {
    && (forall id: string :: Owns(a, user, id) <==> Owns(b, user, id))
    && (forall id: string | Owns(a, user, id) :: a.sessions[id] == b.sessions[id])
    && (forall id: string | Owns(a, user, id) :: id in a.updated && id in b.updated && a.updated[id] == b.updated[id])
    && (forall id: string :: Mine(a, user, id) <==> Mine(b, user, id))
    && (forall id: string | Mine(a, user, id) :: a.saves[id] == b.saves[id])
  }

  ghost predicate Views(fold: Folding, a: Store, b: Store, user: string) {
    WellFormed(fold, a) && WellFormed(fold, b) && SameView(a, b, user)
  }

  ghost predicate Alike(fold: Folding, a: Store, b: Store, user: string) {
    Views(fold, a, b, user) && a.nextID == b.nextID && a.nextSave == b.nextSave
  }

  /** Saves of a user's game are that user's. */
  lemma HeldAreMine(fold: Folding, s: Store, user: string, game: string, id: string)
    requires WellFormed(fold, s) && Owns(s, user, game)
    ensures id in Held(s, game) <==> Mine(s, user, id) && s.saves[id].gameID == game
  {
    if id in s.saves { assert SaveOk(s, id); }
  }

  /** Stores that look the same to a user agree on the saves of each of that user's games. */
  lemma SameGame(fold: Folding, a: Store, b: Store, user: string, game: string)
    requires Views(fold, a, b, user) && Owns(a, user, game)
    ensures Held(a, game) == Held(b, game)
    ensures forall id | id in Held(a, game) :: a.saves[id] == b.saves[id]
  {
    forall id
      ensures id in Held(a, game) <==> id in Held(b, game)
      ensures id in Held(a, game) ==> a.saves[id] == b.saves[id]
    {
      HeldAreMine(fold, a, user, game, id);
      HeldAreMine(fold, b, user, game, id);
    }
  }

  lemma SameNames(fold: Folding, a: Store, b: Store, user: string, game: string, name: string)
    requires Views(fold, a, b, user) && Owns(a, user, game)
    ensures Named(fold, a, game, name) == Named(fold, b, game, name)
  {
    SameGame(fold, a, b, user, game);
    forall id
      ensures id in Named(fold, a, game, name) <==> id in Named(fold, b, game, name)
    {
      assert id in Named(fold, a, game, name) ==> id in Held(a, game);
      assert id in Named(fold, b, game, name) ==> id in Held(b, game);
    }
  }

  lemma SameSaves(fold: Folding, a: Store, b: Store, user: string, game: string)
    requires Views(fold, a, b, user) && Owns(a, user, game)
    ensures Saves(a, user, game) == Saves(b, user, game)
  {
    SameGame(fold, a, b, user, game);
    var xs := set id | id in Held(a, game) :: Summarize(a.saves[id]);
    var ys := set id | id in Held(b, game) :: Summarize(b.saves[id]);
    assert xs == ys;
  }

  lemma SameListing(fold: Folding, a: Store, b: Store, user: string)
    requires Views(fold, a, b, user)
    ensures List(a, user) <= List(b, user)
  {
    forall x | x in List(a, user)
      ensures x in List(b, user)
    {
      var id :| id in a.sessions && a.sessions[id].userID == user && x == SummaryOf(a, id);
      assert Owns(a, user, id);
      assert SummaryOf(b, id) == x;
    }
  }

  // ----- a user's own operations -----

  function PutSession(s: Store, session: Session, now: int, counter: nat): Store {
    s.(nextID := counter, sessions := s.sessions[session.id := session], updated := s.updated[session.id := now])
  }

  lemma PutSessionSameView(a: Store, b: Store, session: Session, now: int, counter: nat)
    requires SameView(a, b, session.userID)
    ensures SameView(PutSession(a, session, now, counter), PutSession(b, session, now, counter), session.userID)
  {
    var t, u, user := PutSession(a, session, now, counter), PutSession(b, session, now, counter), session.userID;
    forall id: string
      ensures Owns(t, user, id) <==> Owns(a, user, id) || id == session.id
      ensures Owns(u, user, id) <==> Owns(b, user, id) || id == session.id
      ensures Mine(t, user, id) <==> Mine(a, user, id)
      ensures Mine(u, user, id) <==> Mine(b, user, id)
    {
    }
  }

  lemma OwnCreate(a: Store, b: Store, session: Session, now: int)
    requires SameView(a, b, session.userID) && a.nextID == b.nextID
    ensures Create(a, session, now).1 == Create(b, session, now).1
    ensures SameView(Create(a, session, now).0, Create(b, session, now).0, session.userID)
  {
    if session.userID != "" {
      var stored := session.(id := Format(a.nextID + 1), version := 1);
      PutSessionSameView(a, b, stored, now, a.nextID + 1);
      assert Create(a, session, now).0 == PutSession(a, stored, now, a.nextID + 1);
      assert Create(b, session, now).0 == PutSession(b, stored, now, a.nextID + 1);
    }
  }

  lemma OwnUpdate(a: Store, b: Store, session: Session, now: int)
    requires SameView(a, b, session.userID)
    ensures Update(a, session, now).1 == Update(b, session, now).1
    ensures SameView(Update(a, session, now).0, Update(b, session, now).0, session.userID)
  {
    assert Owns(a, session.userID, session.id) <==> Owns(b, session.userID, session.id);
    if Update(a, session, now).1.Ok? {
      var stored := session.(version := session.version + 1);
      UpdatePuts(a, session, now);
      UpdatePuts(b, session, now);
      PutSessionSameView(a, b, stored, now, 0);
      CounterUnseen(PutSession(a, stored, now, 0), PutSession(b, stored, now, 0),
                    Update(a, session, now).0, Update(b, session, now).0, session.userID);
    }
  }

  lemma UpdatePuts(s: Store, session: Session, now: int)
    requires Update(s, session, now).1.Ok?
    ensures Update(s, session, now).0 == PutSession(s, session.(version := session.version + 1), now, s.nextID)
  {
  }

  /** The counters are not part of the view. */
  lemma CounterUnseen(a: Store, b: Store, t: Store, u: Store, user: string)
    requires SameView(a, b, user)
    requires t.sessions == a.sessions && t.updated == a.updated && t.saves == a.saves
    requires u.sessions == b.sessions && u.updated == b.updated && u.saves == b.saves
    ensures SameView(t, u, user)
  {
    forall id: string
      ensures Owns(t, user, id) <==> Owns(a, user, id)
      ensures Owns(u, user, id) <==> Owns(b, user, id)
      ensures Mine(t, user, id) <==> Mine(a, user, id)
      ensures Mine(u, user, id) <==> Mine(b, user, id)
    {
    }
  }

  lemma OwnDelete(fold: Folding, a: Store, b: Store, user: string, game: string)
    requires Views(fold, a, b, user)
    ensures Delete(a, user, game).1 == Delete(b, user, game).1
    ensures SameView(Delete(a, user, game).0, Delete(b, user, game).0, user)
  {
    assert Owns(a, user, game) <==> Owns(b, user, game);
    if Owns(a, user, game) {
      SameGame(fold, a, b, user, game);
      DeleteSameView(a, b, user, game);
    }
  }

  lemma DeleteSameView(a: Store, b: Store, user: string, game: string)
    requires SameView(a, b, user) && Owns(a, user, game) && Held(a, game) == Held(b, game)
    ensures SameView(Delete(a, user, game).0, Delete(b, user, game).0, user)
  {
    var t, u := Delete(a, user, game).0, Delete(b, user, game).0;
    forall id: string
      ensures Owns(t, user, id) <==> Owns(a, user, id) && id != game
      ensures Owns(u, user, id) <==> Owns(b, user, id) && id != game
      ensures Mine(t, user, id) <==> Mine(a, user, id) && id !in Held(a, game)
      ensures Mine(u, user, id) <==> Mine(b, user, id) && id !in Held(b, game)
    {
    }
  }

  lemma SameCreateSave(fold: Folding, a: Store, b: Store, snapshot: Snapshot, now: int)
    requires Views(fold, a, b, snapshot.userID) && a.nextSave == b.nextSave
    ensures CreateSave(fold, a, snapshot, now).1 == CreateSave(fold, b, snapshot, now).1
    ensures CreateSave(fold, a, snapshot, now).0.nextSave == CreateSave(fold, b, snapshot, now).0.nextSave
  {
    assert Owns(a, snapshot.userID, snapshot.gameID) <==> Owns(b, snapshot.userID, snapshot.gameID);
    if Owns(a, snapshot.userID, snapshot.gameID) {
      SameGame(fold, a, b, snapshot.userID, snapshot.gameID);
      SameNames(fold, a, b, snapshot.userID, snapshot.gameID, snapshot.name);
    }
  }

  lemma OwnCreateSave(fold: Folding, a: Store, b: Store, snapshot: Snapshot, now: int)
    requires Views(fold, a, b, snapshot.userID) && a.nextSave == b.nextSave
    ensures CreateSave(fold, a, snapshot, now).1 == CreateSave(fold, b, snapshot, now).1
    ensures SameView(CreateSave(fold, a, snapshot, now).0, CreateSave(fold, b, snapshot, now).0, snapshot.userID)
  {
    SameCreateSave(fold, a, b, snapshot, now);
    var (t, r) := CreateSave(fold, a, snapshot, now);
    CreateSavePuts(fold, a, snapshot, now);
    CreateSavePuts(fold, b, snapshot, now);
    if r.Ok? {
      PutSameView(a, b, snapshot.(id := r.value.0.id, createdAt := now), t.nextSave);
    }
  }

  lemma PutSameView(a: Store, b: Store, save: Snapshot, counter: nat)
    requires SameView(a, b, save.userID)
    ensures SameView(PutSave(a, save, counter), PutSave(b, save, counter), save.userID)
  {
    var t, u, user := PutSave(a, save, counter), PutSave(b, save, counter), save.userID;
    forall id: string
      ensures Owns(t, user, id) <==> Owns(a, user, id)
      ensures Owns(u, user, id) <==> Owns(b, user, id)
      ensures Mine(t, user, id) <==> Mine(a, user, id) || id == save.id
      ensures Mine(u, user, id) <==> Mine(b, user, id) || id == save.id
    {
    }
  }

  lemma DropSameView(a: Store, b: Store, user: string, save: string)
    requires SameView(a, b, user)
    ensures SameView(a.(saves := a.saves - {save}), b.(saves := b.saves - {save}), user)
  {
    var t, u := a.(saves := a.saves - {save}), b.(saves := b.saves - {save});
    forall id: string
      ensures Owns(t, user, id) <==> Owns(a, user, id)
      ensures Owns(u, user, id) <==> Owns(b, user, id)
      ensures Mine(t, user, id) <==> Mine(a, user, id) && id != save
      ensures Mine(u, user, id) <==> Mine(b, user, id) && id != save
    {
    }
  }

  lemma OwnDeleteSave(fold: Folding, a: Store, b: Store, user: string, game: string, save: string)
    requires Views(fold, a, b, user)
    ensures DeleteSave(a, user, game, save).1 == DeleteSave(b, user, game, save).1
    ensures SameView(DeleteSave(a, user, game, save).0, DeleteSave(b, user, game, save).0, user)
  {
    assert Owns(a, user, game) <==> Owns(b, user, game);
    if Owns(a, user, game) {
      SameGame(fold, a, b, user, game);
      DropSameView(a, b, user, save);
    }
  }

  lemma OwnReads(fold: Folding, a: Store, b: Store, user: string, game: string, save: string)
    requires Views(fold, a, b, user)
    ensures Load(a, user, game) == Load(b, user, game)
    ensures Saves(a, user, game) == Saves(b, user, game)
    ensures LoadSave(a, user, game, save) == LoadSave(b, user, game, save)
    ensures List(a, user) == List(b, user)
  {
    assert Owns(a, user, game) <==> Owns(b, user, game);
    if Owns(a, user, game) {
      SameSaves(fold, a, b, user, game);
      SameGame(fold, a, b, user, game);
    }
    SameListing(fold, a, b, user);
    SameViewIsSymmetric(a, b, user);
    SameListing(fold, b, a, user);
  }

  lemma SameViewIsSymmetric(a: Store, b: Store, user: string)
    requires SameView(a, b, user)
    ensures SameView(b, a, user)
  {
  }

  predicate Reads(call: Call) { call.Loading? || call.Listing? || call.ListingSaves? || call.LoadingSave? }

  /** The identifier counter a call draws from, if it draws from one. */
  function Drawn(s: Store, call: Call): nat {
    if call.Creating? then s.nextID else if call.CreatingSave? then s.nextSave else 0
  }

  lemma OwnReadAgrees(fold: Folding, a: Store, b: Store, user: string, call: Call, now: int)
    requires Views(fold, a, b, user) && Reads(call)
    ensures Exec(fold, a, user, call, now).0 == a && Exec(fold, b, user, call, now).0 == b
    ensures Exec(fold, a, user, call, now).1 == Exec(fold, b, user, call, now).1
  {
    OwnReads(fold, a, b, user,
             if call.Loading? then call.id else if call.Listing? then "" else call.game,
             if call.LoadingSave? then call.save else "");
  }

  lemma OwnWriteAgrees(fold: Folding, a: Store, b: Store, user: string, call: Call, now: int)
    requires Views(fold, a, b, user) && !Reads(call) && Drawn(a, call) == Drawn(b, call)
    ensures Exec(fold, a, user, call, now).1 == Exec(fold, b, user, call, now).1
    ensures SameView(Exec(fold, a, user, call, now).0, Exec(fold, b, user, call, now).0, user)
  {
    match call
    case Creating(session) => OwnCreate(a, b, session.(userID := user), now);
    case Updating(session) => OwnUpdate(a, b, session.(userID := user), now);
    case Deleting(id) => OwnDelete(fold, a, b, user, id);
    case CreatingSave(snapshot) => OwnCreateSave(fold, a, b, snapshot.(userID := user), now);
    case DeletingSave(game, save) => OwnDeleteSave(fold, a, b, user, game, save);
    case _ =>
  }

  /** A user's call gives the same answer and leaves the same view on any two stores that look the same to that
      user, given the same counter if it draws a new identifier. */
  lemma OwnCallAgrees(fold: Folding, a: Store, b: Store, user: string, call: Call, now: int)
    requires Views(fold, a, b, user) && Drawn(a, call) == Drawn(b, call)
    ensures Exec(fold, a, user, call, now).1 == Exec(fold, b, user, call, now).1
    ensures Views(fold, Exec(fold, a, user, call, now).0, Exec(fold, b, user, call, now).0, user)
  {
    ExecKeepsWellFormed(fold, a, user, call, now);
    ExecKeepsWellFormed(fold, b, user, call, now);
    if Reads(call) {
      OwnReadAgrees(fold, a, b, user, call, now);
    } else {
      OwnWriteAgrees(fold, a, b, user, call, now);
    }
  }

  lemma ExecCounts(fold: Folding, s: Store, user: string, call: Call, now: int)
    ensures var (t, answer) := Exec(fold, s, user, call, now);
            && t.nextID == s.nextID + (if answer.ASession? && call.Creating? && answer.session.Ok? then 1 else 0)
            && t.nextSave == s.nextSave + (if answer.AWritten? && answer.written.Ok? && !answer.written.value.1
                                           then 1 else 0)
  {
  }

  /** And it leaves alike what was alike. */
  lemma OwnCallsAgree(fold: Folding, a: Store, b: Store, user: string, call: Call, now: int)
    requires Alike(fold, a, b, user)
    ensures Exec(fold, a, user, call, now).1 == Exec(fold, b, user, call, now).1
    ensures Alike(fold, Exec(fold, a, user, call, now).0, Exec(fold, b, user, call, now).0, user)
  {
    OwnCallAgrees(fold, a, b, user, call, now);
    ExecCounts(fold, a, user, call, now);
    ExecCounts(fold, b, user, call, now);
  }

  // ----- everybody else's -----

  lemma PutSessionUnseen(s: Store, user: string, session: Session, now: int, counter: nat)
    requires s.updated.Keys == s.sessions.Keys
    requires session.userID != user && !Owns(s, user, session.id)
    ensures SameView(s, PutSession(s, session, now, counter), user)
  {
  }

  lemma PutSaveUnseen(s: Store, user: string, save: Snapshot, counter: nat)
    requires s.updated.Keys == s.sessions.Keys
    requires save.userID != user && !Mine(s, user, save.id)
    ensures SameView(s, PutSave(s, save, counter), user)
  {
  }

  lemma OtherCreate(fold: Folding, s: Store, user: string, session: Session, now: int)
    requires WellFormed(fold, s) && user != session.userID
    ensures SameView(s, Create(s, session, now).0, user)
  {
    var r := Create(s, session, now).1;
    CreateKeepsWellFormed(fold, s, session, now);
    if r.Ok? {
      PutSessionUnseen(s, user, r.value, now, s.nextID + 1);
    }
  }

  lemma OtherUpdate(fold: Folding, s: Store, user: string, session: Session, now: int)
    requires WellFormed(fold, s) && user != session.userID
    ensures SameView(s, Update(s, session, now).0, user)
  {
    var r := Update(s, session, now).1;
    if r.Ok? {
      PutSessionUnseen(s, user, r.value, now, s.nextID);
    }
  }

  lemma OtherDelete(fold: Folding, s: Store, user: string, other: string, game: string)
    requires WellFormed(fold, s) && user != other
    ensures SameView(s, Delete(s, other, game).0, user)
  {
    if Owns(s, other, game) {
      forall id: string ensures Mine(s, user, id) ==> id !in Held(s, game) {
        HeldAreMine(fold, s, other, game, id);
      }
    }
  }

  lemma OtherCreateSave(fold: Folding, s: Store, user: string, snapshot: Snapshot, now: int)
    requires WellFormed(fold, s) && user != snapshot.userID
    ensures SameView(s, CreateSave(fold, s, snapshot, now).0, user)
  {
    var (t, r) := CreateSave(fold, s, snapshot, now);
    CreateSaveKeepsWellFormed(fold, s, snapshot, now);
    CreateSavePuts(fold, s, snapshot, now);
    if r.Ok? {
      var id := r.value.0.id;
      if r.value.1 {
        assert id in Held(s, snapshot.gameID);
        HeldAreMine(fold, s, snapshot.userID, snapshot.gameID, id);
      }
      PutSaveUnseen(s, user, snapshot.(id := id, createdAt := now), t.nextSave);
    }
  }

  lemma OtherDeleteSave(fold: Folding, s: Store, user: string, other: string, game: string, save: string)
    requires WellFormed(fold, s) && user != other
    ensures SameView(s, DeleteSave(s, other, game, save).0, user)
  {
    if Owns(s, other, game) {
      HeldAreMine(fold, s, other, game, save);
    }
  }

  /** No call by another user changes what this one can see. */
  lemma OtherCallsAreInvisible(fold: Folding, s: Store, user: string, other: string, call: Call, now: int)
    requires WellFormed(fold, s) && user != other
    ensures SameView(s, Exec(fold, s, other, call, now).0, user)
  {
    match call
    case Creating(session) => OtherCreate(fold, s, user, session.(userID := other), now);
    case Updating(session) => OtherUpdate(fold, s, user, session.(userID := other), now);
    case Deleting(id) => OtherDelete(fold, s, user, other, id);
    case CreatingSave(snapshot) => OtherCreateSave(fold, s, user, snapshot.(userID := other), now);
    case DeletingSave(game, save) => OtherDeleteSave(fold, s, user, other, game, save);
    case _ =>
  }

  // ----- whole sequences of calls -----

  datatype Made = Made(user: string, call: Call, now: int)

  ghost function ExecAll(fold: Folding, s: Store, calls: seq<Made>): (Store, seq<Answer>)
    decreases |calls|
  {
    if calls == [] then (s, [])
    else
      var (t, answer) := Exec(fold, s, calls[0].user, calls[0].call, calls[0].now);
      var (u, answers) := ExecAll(fold, t, calls[1..]);
      (u, [answer] + answers)
  }

  /** Owner non-interference, first half: any sequence of one user's calls gives the same answers and the
      same resulting view on two stores that agree on that user's games and saves and on the counters. */
  lemma {:induction false} OwnSequencesAgree(fold: Folding, a: Store, b: Store, user: string, calls: seq<Made>)
    requires Alike(fold, a, b, user) && forall c | c in calls :: c.user == user
    ensures ExecAll(fold, a, calls).1 == ExecAll(fold, b, calls).1
    ensures Alike(fold, ExecAll(fold, a, calls).0, ExecAll(fold, b, calls).0, user)
    decreases |calls|
  {
    if calls != [] {
      var c := calls[0];
      OwnCallsAgree(fold, a, b, user, c.call, c.now);
      assert forall x | x in calls[1..] :: x in calls;
      OwnSequencesAgree(fold, Exec(fold, a, user, c.call, c.now).0, Exec(fold, b, user, c.call, c.now).0,
                        user, calls[1..]);
    }
  }

  /** Second half: no sequence of calls by anybody else changes what the user can see. */
  lemma {:induction false} OtherSequencesAreInvisible(fold: Folding, s: Store, user: string, calls: seq<Made>)
    requires WellFormed(fold, s) && forall c | c in calls :: c.user != user
    ensures WellFormed(fold, ExecAll(fold, s, calls).0)
    ensures SameView(s, ExecAll(fold, s, calls).0, user)
    decreases |calls|
  {
    if calls != [] {
      var c := calls[0];
      OtherCallsAreInvisible(fold, s, user, c.user, c.call, c.now);
      ExecKeepsWellFormed(fold, s, c.user, c.call, c.now);
      assert forall x | x in calls[1..] :: x in calls;
      OtherSequencesAreInvisible(fold, Exec(fold, s, c.user, c.call, c.now).0, user, calls[1..]);
    }
  }

  // ----- calls of everybody, interleaved -----

  /** A call of the user's own, with the counter it draws from. */
  datatype Own = Own(call: Call, now: int, drawn: nat)

  ghost function OwnCalls(fold: Folding, s: Store, user: string, calls: seq<Made>): seq<Own>
    decreases |calls|
  {
    if calls == [] then []
    else
      var c := calls[0];
      (if c.user == user then [Own(c.call, c.now, Drawn(s, c.call))] else [])
      + OwnCalls(fold, Exec(fold, s, c.user, c.call, c.now).0, user, calls[1..])
  }

  ghost function OwnAnswers(fold: Folding, s: Store, user: string, calls: seq<Made>): seq<Answer>
    decreases |calls|
  {
    if calls == [] then []
    else
      var (t, answer) := Exec(fold, s, calls[0].user, calls[0].call, calls[0].now);
      (if calls[0].user == user then [answer] else []) + OwnAnswers(fold, t, user, calls[1..])
  }

  lemma SameViewIsTransitive(a: Store, b: Store, c: Store, user: string)
    requires SameView(a, b, user) && SameView(b, c, user)
    ensures SameView(a, c, user)
  {
    forall id: string
      ensures Owns(a, user, id) <==> Owns(c, user, id)
      ensures Owns(a, user, id) ==> a.sessions[id] == c.sessions[id]
      ensures Owns(a, user, id) ==> id in a.updated && id in c.updated && a.updated[id] == c.updated[id]
      ensures Mine(a, user, id) <==> Mine(c, user, id)
      ensures Mine(a, user, id) ==> a.saves[id] == c.saves[id]
    {
      assert Owns(a, user, id) <==> Owns(b, user, id);
      assert Mine(a, user, id) <==> Mine(b, user, id);
    }
  }

  lemma SkipOther(fold: Folding, a: Store, b: Store, user: string, xs: seq<Made>)
    requires WellFormed(fold, a) && SameView(a, b, user) && xs != [] && xs[0].user != user
    ensures var t := Exec(fold, a, xs[0].user, xs[0].call, xs[0].now).0;
            && WellFormed(fold, t) && SameView(t, b, user)
            && OwnCalls(fold, a, user, xs) == OwnCalls(fold, t, user, xs[1..])
            && OwnAnswers(fold, a, user, xs) == OwnAnswers(fold, t, user, xs[1..])
            && ExecAll(fold, a, xs).0 == ExecAll(fold, t, xs[1..]).0
  {
    var t := Exec(fold, a, xs[0].user, xs[0].call, xs[0].now).0;
    ExecKeepsWellFormed(fold, a, xs[0].user, xs[0].call, xs[0].now);
    OtherCallsAreInvisible(fold, a, user, xs[0].user, xs[0].call, xs[0].now);
    SameViewIsSymmetric(a, t, user);
    SameViewIsTransitive(t, a, b, user);
  }

  lemma TakeOwn(fold: Folding, s: Store, user: string, xs: seq<Made>)
    requires xs != [] && xs[0].user == user
    ensures var (t, answer) := Exec(fold, s, user, xs[0].call, xs[0].now);
            && OwnCalls(fold, s, user, xs)
               == [Own(xs[0].call, xs[0].now, Drawn(s, xs[0].call))] + OwnCalls(fold, t, user, xs[1..])
            && OwnAnswers(fold, s, user, xs) == [answer] + OwnAnswers(fold, t, user, xs[1..])
            && ExecAll(fold, s, xs).0 == ExecAll(fold, t, xs[1..]).0
  {
  }

  lemma SameHead<T>(a: T, xs: seq<T>, b: T, ys: seq<T>)
    requires [a] + xs == [b] + ys
    ensures a == b && xs == ys
  {
    assert ([a] + xs)[0] == a && ([a] + xs)[1..] == xs;
    assert ([b] + ys)[0] == b && ([b] + ys)[1..] == ys;
  }

  /** Owner non-interference, interleaved: in two runs in which a user makes the same calls, in between whatever
      different calls of everybody else, the user gets the same answers and is left with the same view, provided each
      game the user creates draws the same number, and each save. */
  lemma {:induction false} InterleavedCallsAgree(fold: Folding, a: Store, b: Store, user: string,
                                                 xs: seq<Made>, ys: seq<Made>)
    requires WellFormed(fold, a) && WellFormed(fold, b) && SameView(a, b, user)
    requires OwnCalls(fold, a, user, xs) == OwnCalls(fold, b, user, ys)
    ensures OwnAnswers(fold, a, user, xs) == OwnAnswers(fold, b, user, ys)
    ensures SameView(ExecAll(fold, a, xs).0, ExecAll(fold, b, ys).0, user)
    decreases |xs| + |ys|
  {
    if xs != [] && xs[0].user != user {
      SkipOther(fold, a, b, user, xs);
      InterleavedCallsAgree(fold, Exec(fold, a, xs[0].user, xs[0].call, xs[0].now).0, b, user, xs[1..], ys);
    } else if ys != [] && ys[0].user != user {
      SameViewIsSymmetric(a, b, user);
      SkipOther(fold, b, a, user, ys);
      var t := Exec(fold, b, ys[0].user, ys[0].call, ys[0].now).0;
      SameViewIsSymmetric(t, a, user);
      InterleavedCallsAgree(fold, a, t, user, xs, ys[1..]);
    } else if xs != [] && ys != [] {
      TakeOwn(fold, a, user, xs);
      TakeOwn(fold, b, user, ys);
      var x, y := xs[0], ys[0];
      var t, u := Exec(fold, a, user, x.call, x.now).0, Exec(fold, b, user, y.call, y.now).0;
      SameHead(Own(x.call, x.now, Drawn(a, x.call)), OwnCalls(fold, t, user, xs[1..]),
               Own(y.call, y.now, Drawn(b, y.call)), OwnCalls(fold, u, user, ys[1..]));
      OwnCallAgrees(fold, a, b, user, x.call, x.now);
      InterleavedCallsAgree(fold, t, u, user, xs[1..], ys[1..]);
    }
  }
}
