/** internal/game/memstore.go as the object it is: maps updated in place under the store's mutex, with the
    loops that scan them. Every method is held to the corresponding operation of module GameStore. */
module MemoryStores {
  import opened Text
  import opened Spec = GameStore

  class MemoryStore {
    const fold: Folding
    var sessions: map<string, Session>
    var updated: map<string, int>
    var saves: map<string, Snapshot>
    var nextID: nat
    var nextSave: nat

    ghost function Contents(): Store
      reads this
    {
      Store(sessions, updated, saves, nextID, nextSave)
    }

    constructor (fold: Folding)
      ensures this.fold == fold && Contents() == EMPTY
    {
      this.fold := fold;
      sessions, updated, saves := map[], map[], map[];
      nextID, nextSave := 0, 0;
    }

    method Create(session: Session, now: int) returns (r: Result<Session>)
      modifies this
      ensures (Contents(), r) == Spec.Create(old(Contents()), session, now)
    {
      if session.userID == "" {
        return Err(NoUser);
      }
      nextID := nextID + 1;
      var stored := session.(id := Format(nextID), version := 1);
      sessions := sessions[stored.id := stored];
      updated := updated[stored.id := now];
      return Ok(stored);
    }

    method Load(user: string, id: string) returns (r: Result<Session>)
      ensures r == Spec.Load(Contents(), user, id)
    {
      if id !in sessions || sessions[id].userID != user {
        return Err(SessionNotFound);
      }
      return Ok(sessions[id]);
    }

    method Update(session: Session, now: int) returns (r: Result<Session>)
      modifies this
      ensures (Contents(), r) == Spec.Update(old(Contents()), session, now)
    {
      if session.id !in sessions || sessions[session.id].userID != session.userID {
        return Err(SessionNotFound);
      }
      if sessions[session.id].version != session.version {
        return Err(VersionConflict);
      }
      var stored := session.(version := session.version + 1);
      sessions := sessions[stored.id := stored];
      updated := updated[stored.id := now];
      return Ok(stored);
    }

    method List(user: string) returns (summaries: set<Summary>)
      ensures summaries == Spec.List(Contents(), user)
    {
      summaries := {};
      var ids := sessions.Keys;
      while ids != {}
        invariant ids <= sessions.Keys
        invariant summaries == set id | id in sessions && id !in ids && sessions[id].userID == user
                                :: SummaryOf(Contents(), id)
        decreases |ids|
      {
        var id :| id in ids;
        var session := sessions[id];
        if session.userID == user {
          var at := if id in updated then updated[id] else 0;
          summaries := summaries + {Summary(id, session.storyKey, session.turn, session.halted, at)};
        }
        ids := ids - {id};
      }
    }

    method Delete(user: string, id: string) returns (r: Result<()>)
      modifies this
      ensures (Contents(), r) == Spec.Delete(old(Contents()), user, id)
    {
      if id !in sessions || sessions[id].userID != user {
        return Err(SessionNotFound);
      }
      sessions := sessions - {id};
      updated := updated - {id};
      SweepSaves(id);
      return Ok(());
    }

    /** The loop of Delete that drops every save hanging off the game. */
    method SweepSaves(game: string)
      modifies this`saves
      ensures saves == old(saves) - Held(old(Contents()), game)
    {
      var ids := saves.Keys;
      while ids != {}
        invariant ids <= saves.Keys <= old(saves).Keys
        invariant forall i | i in old(saves) :: i in saves <==> i in ids || old(saves)[i].gameID != game
        invariant forall i | i in saves :: saves[i] == old(saves)[i]
        decreases |ids|
      {
        var i :| i in ids;
        if saves[i].gameID == game {
          saves := saves - {i};
        }
        ids := ids - {i};
      }
    }

    /** The first loop of CreateSave: the first save of the game the iteration meets under that name. */
    method FindNamed(game: string, name: string) returns (found: Option<string>)
      ensures found.Some? ==> found.value in Named(fold, Contents(), game, name)
      ensures found.None? ==> Named(fold, Contents(), game, name) == {}
    {
      var ids := saves.Keys;
      while ids != {}
        invariant ids <= saves.Keys
        invariant forall i | i in saves && i !in ids :: i !in Named(fold, Contents(), game, name)
        decreases |ids|
      {
        var i :| i in ids;
        if saves[i].gameID == game && fold(saves[i].name) == fold(name) {
          return Some(i);
        }
        ids := ids - {i};
      }
      return None;
    }

    /** The second loop of CreateSave. */
    method CountHeld(game: string) returns (held: nat)
      ensures held == |Held(Contents(), game)|
    {
      held := 0;
      ghost var seen: set<string> := {};
      var ids := saves.Keys;
      while ids != {}
        invariant ids <= saves.Keys
        invariant seen == set i | i in saves && i !in ids && saves[i].gameID == game
        invariant held == |seen|
        decreases |ids|
      {
        var i :| i in ids;
        if saves[i].gameID == game {
          held := held + 1;
          seen := seen + {i};
        }
        ids := ids - {i};
      }
      assert seen == Held(Contents(), game);
    }

    /** On a well-formed store the answer does not depend on the order the maps are iterated in. */
    method CreateSave(snapshot: Snapshot, now: int) returns (r: Result<(Save, bool)>)
      requires WellFormed(fold, Contents())
      modifies this
      ensures (Contents(), r) == Spec.CreateSave(fold, old(Contents()), snapshot, now)
    {
      if snapshot.gameID !in sessions || sessions[snapshot.gameID].userID != snapshot.userID {
        return Err(SessionNotFound);
      }
      var found := FindNamed(snapshot.gameID, snapshot.name);
      if found.Some? {
        AtMostOneNamed(fold, Contents(), snapshot.gameID, snapshot.name, found.value);
        var stored := snapshot.(id := found.value, createdAt := now);
        saves := saves[stored.id := stored];
        return Ok((Summarize(stored), true));
      }
      var held := CountHeld(snapshot.gameID);
      if held >= MAX_SAVES_PER_GAME {
        return Err(TooManySaves);
      }
      nextSave := nextSave + 1;
      var stored := snapshot.(id := Format(nextSave), createdAt := now);
      saves := saves[stored.id := stored];
      return Ok((Summarize(stored), false));
    }

    method Saves(user: string, game: string) returns (r: Result<set<Save>>)
      ensures r == Spec.Saves(Contents(), user, game)
    {
      if game !in sessions || sessions[game].userID != user {
        return Err(SessionNotFound);
      }
      var listed: set<Save> := {};
      var ids := saves.Keys;
      while ids != {}
        invariant ids <= saves.Keys
        invariant listed == set i | i in saves && i !in ids && saves[i].gameID == game :: Summarize(saves[i])
        decreases |ids|
      {
        var i :| i in ids;
        if saves[i].gameID == game {
          listed := listed + {Summarize(saves[i])};
        }
        ids := ids - {i};
      }
      assert listed == set i | i in Held(Contents(), game) :: Summarize(saves[i]);
      return Ok(listed);
    }

    method LoadSave(user: string, game: string, save: string) returns (r: Result<Snapshot>)
      ensures r == Spec.LoadSave(Contents(), user, game, save)
    {
      if game !in sessions || sessions[game].userID != user {
        return Err(SessionNotFound);
      }
      if save !in saves || saves[save].gameID != game {
        return Err(SaveNotFound);
      }
      return Ok(saves[save]);
    }

    method DeleteSave(user: string, game: string, save: string) returns (r: Result<Save>)
      modifies this
      ensures (Contents(), r) == Spec.DeleteSave(old(Contents()), user, game, save)
    {
      if game !in sessions || sessions[game].userID != user {
        return Err(SessionNotFound);
      }
      if save !in saves || saves[save].gameID != game {
        return Err(SaveNotFound);
      }
      var stored := saves[save];
      saves := saves - {save};
      return Ok(Summarize(stored));
    }
  }
}
