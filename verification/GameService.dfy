/** The service as the object it is: each operation takes the session it loaded apart, puts it together again
    and writes it back. With nothing else running, each is held to the operation of module Service. */
module GameServices {
  import opened Text
  import opened GameStore
  import opened Transcript
  import opened Service
  import opened MemoryStores

  class GameService {
    const world: World
    const store: MemoryStore

    constructor (world: World, store: MemoryStore)
      ensures this.world == world && this.store == store
    {
      this.world, this.store := world, store;
    }

    method NewGame(user: string, story: string, seed: nat, now: int) returns (reply: Reply)
      modifies store
      ensures (store.Contents(), reply) == Serve(world, old(store.Contents()), Request.NewGame(user, story), seed, now)
    {
      if user == "" {
        return Refused(NoUser);
      }
      if story !in world.stories {
        return Refused(StoryUnavailable);
      }
      var key := world.stories[story];
      var outcome := world.start(key, seed);
      if outcome.Failed? {
        return Refused(EngineFailed);
      }
      var result := outcome.result;
      var created := store.Create(
        Session("", user, key, result.state, result.output, result.status, 0, 0, result.halted), now);
      return Answer(created);
    }

    method Play(user: string, game: string, command: string, seed: nat, now: int) returns (reply: Reply)
      modifies store
      ensures (store.Contents(), reply) ==
              Serve(world, old(store.Contents()), On(user, game, PlayOp(command)), seed, now)
    {
      if user == "" {
        return Refused(NoUser);
      }
      var loaded := store.Load(user, game);
      if loaded.Err? {
        return Refused(loaded.error);
      }
      var session := loaded.value;
      if session.halted {
        return Refused(GameOver);
      }
      if session.storyKey !in world.stories.Values {
        return Refused(StoryUnavailable);
      }
      if session.state == [] || |command| > MAX_COMMAND_BYTES {
        return Refused(EngineFailed);
      }
      var outcome := world.turn(session.storyKey, session.state, command, seed);
      if outcome.Failed? {
        return Refused(EngineFailed);
      }
      session := session.(state := outcome.result.state);
      var transcript := BuildTranscript(session.transcript, command, outcome.result.output);
      session := session.(transcript := transcript);
      session := session.(status := outcome.result.status);
      session := session.(halted := outcome.result.halted);
      session := session.(turn := session.turn + 1);
      var updated := store.Update(session, now);
      return Answer(updated);
    }

    method Restart(user: string, game: string, seed: nat, now: int) returns (reply: Reply)
      modifies store
      ensures (store.Contents(), reply) == Serve(world, old(store.Contents()), On(user, game, RestartOp), seed, now)
    {
      if user == "" {
        return Refused(NoUser);
      }
      var loaded := store.Load(user, game);
      if loaded.Err? {
        return Refused(loaded.error);
      }
      var session := loaded.value;
      if session.storyKey !in world.stories.Values {
        return Refused(StoryUnavailable);
      }
      var outcome := world.start(session.storyKey, seed);
      if outcome.Failed? {
        return Refused(EngineFailed);
      }
      session := session.(state := outcome.result.state);
      session := session.(transcript := outcome.result.output);
      session := session.(status := outcome.result.status);
      session := session.(halted := outcome.result.halted);
      session := session.(turn := 0);
      var updated := store.Update(session, now);
      return Answer(updated);
    }

    method Save(user: string, game: string, name: string, echo: string, now: int) returns (reply: Reply)
      requires store.fold == world.fold && WellFormed(world.fold, store.Contents())
      modifies store
      ensures (store.Contents(), reply) ==
              Serve(world, old(store.Contents()), On(user, game, SaveOp(name, echo)), 0, now)
    {
      if user == "" {
        return Refused(NoUser);
      }
      var loaded := store.Load(user, game);
      if loaded.Err? {
        return Refused(loaded.error);
      }
      var session := loaded.value;
      if session.state == [] {
        return Refused(GameOver);
      }
      SessionKnowsItsName(user, game);
      var created := store.CreateSave(
        Snapshot("", user, game, name, session.storyKey, session.state, session.transcript, session.status,
                 session.turn, 0), now);
      if created.Err? {
        return Refused(created.error);
      }
      var (save, replaced) := created.value;
      var transcript := BuildNotice(session.transcript, echo, SavedNotice(world, save.name, replaced));
      session := session.(transcript := transcript);
      var updated := store.Update(session, now);
      if updated.Ok? {
        session := updated.value;
      }
      return SavedAs(session, save, replaced);
    }

    lemma SessionKnowsItsName(user: string, game: string)
      requires WellFormed(world.fold, store.Contents()) && Owns(store.Contents(), user, game)
      ensures store.sessions[game].id == game
    {
      assert SessionOk(store.Contents(), game);
    }

    method Restore(user: string, game: string, save: string, echo: string, now: int) returns (reply: Reply)
      modifies store
      ensures (store.Contents(), reply) ==
              Serve(world, old(store.Contents()), On(user, game, RestoreOp(save, echo)), 0, now)
    {
      if user == "" {
        return Refused(NoUser);
      }
      var loaded := store.Load(user, game);
      if loaded.Err? {
        return Refused(loaded.error);
      }
      var session := loaded.value;
      var found := store.LoadSave(user, game, save);
      if found.Err? {
        return Refused(found.error);
      }
      var snapshot := found.value;
      if snapshot.storyKey != session.storyKey {
        return Refused(SaveMismatch);
      }
      session := session.(state := snapshot.state);
      session := session.(status := snapshot.status);
      session := session.(turn := snapshot.turn);
      var transcript := BuildNotice(snapshot.transcript, echo, RestoredNotice(world, snapshot.name));
      session := session.(transcript := transcript);
      session := session.(halted := false);
      var updated := store.Update(session, now);
      return if updated.Ok? then RestoredFrom(updated.value, Summarize(snapshot)) else Refused(updated.error);
    }

    /** findSave: the first of the listed saves under the name. */
    method FindSave(saves: set<Save>, name: string) returns (found: Option<Save>)
      ensures found.Some? ==> found.value in saves && SameSaveName(world.fold, found.value.name, name)
      ensures found.None? ==> forall save | save in saves :: !SameSaveName(world.fold, save.name, name)
    {
      var rest := saves;
      while rest != {}
        invariant rest <= saves
        invariant forall save | save in saves && save !in rest :: !SameSaveName(world.fold, save.name, name)
        decreases |rest|
      {
        var save :| save in rest;
        if world.fold(save.name) == world.fold(name) {
          return Some(save);
        }
        rest := rest - {save};
      }
      return None;
    }

    /** On a well-formed store the save found under a name is the only one there is. */
    method RestoreNamed(user: string, game: string, name: string, echo: string, now: int) returns (reply: Reply)
      requires WellFormed(world.fold, store.Contents())
      modifies store
      ensures (store.Contents(), reply) ==
              Serve(world, old(store.Contents()), On(user, game, RestoreNamedOp(name, echo)), 0, now)
    {
      if user == "" {
        return Refused(NoUser);
      }
      var listed := store.Saves(user, game);
      if listed.Err? {
        return Refused(listed.error);
      }
      var wanted := FindSave(listed.value, name);
      if wanted.None? {
        NothingNamed(game, name, listed.value);
        return Refused(SaveNotFound);
      }
      SaveKnowsItsName(game, name, wanted.value);
      reply := Restore(user, game, wanted.value.id, echo, now);
    }

    lemma NothingNamed(game: string, name: string, listed: set<Save>)
      requires listed == set id | id in Held(store.Contents(), game) :: Summarize(store.saves[id])
      requires forall save | save in listed :: !SameSaveName(world.fold, save.name, name)
      ensures Named(world.fold, store.Contents(), game, name) == {}
    {
      forall id | id in store.saves && store.saves[id].gameID == game
        ensures !SameSaveName(world.fold, store.saves[id].name, name)
      {
        assert id in Held(store.Contents(), game);
        assert Summarize(store.saves[id]) in listed;
      }
    }

    lemma SaveKnowsItsName(game: string, name: string, found: Save)
      requires WellFormed(world.fold, store.Contents()) && SameSaveName(world.fold, found.name, name)
      requires found in set id | id in Held(store.Contents(), game) :: Summarize(store.saves[id])
      ensures Named(world.fold, store.Contents(), game, name) == {found.id}
      ensures Pick(Named(world.fold, store.Contents(), game, name)) == found.id
    {
      var s := store.Contents();
      var id :| id in Held(s, game) && found == Summarize(s.saves[id]);
      assert SaveOk(s, id);
      AtMostOneNamed(world.fold, s, game, name, id);
    }

    method Delete(user: string, game: string) returns (reply: Reply)
      modifies store
      ensures (store.Contents(), reply) == Serve(world, old(store.Contents()), On(user, game, DeleteOp), 0, 0)
    {
      if user == "" {
        return Refused(NoUser);
      }
      var deleted := store.Delete(user, game);
      return if deleted.Ok? then Gone else Refused(deleted.error);
    }

    method DeleteSave(user: string, game: string, save: string) returns (reply: Reply)
      modifies store
      ensures (store.Contents(), reply) == Serve(world, old(store.Contents()), On(user, game, DeleteSaveOp(save)), 0, 0)
    {
      if user == "" {
        return Refused(NoUser);
      }
      var deleted := store.DeleteSave(user, game, save);
      return if deleted.Ok? then SaveGone(deleted.value) else Refused(deleted.error);
    }
  }
}
