/** Under one process a run of the session protocol is matched, step by step, by a store that serves each request
    whole at one instant. */
module SerialMatch {
  import opened Text
  import opened GameStore
  import opened Service
  import opened Locks
  import opened Protocol
  import opened ProtocolSafety
  import opened ProtocolTheorems
  import opened SerialSteps

  // ----- the matching store -----

  /** A save or a restore is decided where it touches the save; its session is still to be written. */
  predicate Due(q: Req) { q.pc.AtCommit? && !q.pc.hand.Nothing? }

  function Written(q: Req): Session
    requires q.pc.AtCommit?
  {
    q.pc.next.(version := q.pc.next.version + 1)
  }

  /** The answer a request has been decided, if it has. */
  function Decided(q: Req): Option<Reply> {
    match q.pc
    case AtCommit(_, next, _, hand) =>
      if hand.Nothing? then None else Some(CommitReply(hand, next, Ok(next.(version := next.version + 1))))
    case AtUnlock(reply) => Some(reply)
    case AtExit(reply) => Some(reply)
    case _ => None
  }

  ghost predicate DueOn(s: State, id: string) {
    exists r :: r in s.reqs && Due(s.reqs[r]) && s.reqs[r].game == id
  }

  /** `a` is the store with every decided session already written; timestamps are not compared. */
  ghost predicate Matches(s: State, a: Store) {
    && a.saves == s.store.saves && a.nextID == s.store.nextID && a.nextSave == s.store.nextSave
    && a.sessions.Keys == s.store.sessions.Keys
    && (forall r | r in s.reqs && Due(s.reqs[r]) ::
          s.reqs[r].game in a.sessions && a.sessions[s.reqs[r].game] == Written(s.reqs[r]))
    && (forall id | id in s.store.sessions && !DueOn(s, id) :: a.sessions[id] == s.store.sessions[id])
  }

  /** The same requests are due to write the same sessions. */
  ghost predicate SameDue(s: State, t: State) {
    && (forall r :: r in s.reqs && Due(s.reqs[r]) <==> r in t.reqs && Due(t.reqs[r]))
    && (forall r | r in s.reqs && Due(s.reqs[r]) ::
          r in t.reqs && t.reqs[r].game == s.reqs[r].game && t.reqs[r].pc == s.reqs[r].pc)
  }

  lemma SameDueOn(s: State, t: State, id: string)
    requires SameDue(s, t)
    ensures DueOn(s, id) <==> DueOn(t, id)
  {
    if DueOn(s, id) {
      var r :| r in s.reqs && Due(s.reqs[r]) && s.reqs[r].game == id;
      assert r in t.reqs && Due(t.reqs[r]) && t.reqs[r].game == id;
    }
    if DueOn(t, id) {
      var r :| r in t.reqs && Due(t.reqs[r]) && t.reqs[r].game == id;
      assert r in s.reqs && Due(s.reqs[r]) && s.reqs[r].game == id;
    }
  }

  lemma NotDueHere(s: State, process: nat, r: nat)
    requires Sound(s.locks) && Places(s) && OneProcess(s, process)
    requires r in s.reqs && Inside(s.reqs[r].pc) && !Due(s.reqs[r])
    ensures !DueOn(s, s.reqs[r].game)
  {
    if DueOn(s, s.reqs[r].game) {
      var x :| x in s.reqs && Due(s.reqs[x]) && s.reqs[x].game == s.reqs[r].game;
      OneInsidePerGame(s, process, r, x);
    }
  }

  lemma MatchingAgree(w: World, s: State, a: Store, game: string)
    requires Matches(s, a) && !DueOn(s, game) && WellFormed(w.fold, s.store)
    ensures Agree(s.store, a, game)
  {
    if game in s.store.sessions { assert SessionOk(s.store, game); }
  }

  // ----- what a step does to the match -----

  /** Nothing was decided and nothing was written. */
  lemma SilentMatches(s: State, t: State, a: Store)
    requires Matches(s, a) && t.store == s.store && SameDue(s, t)
    ensures Matches(t, a)
  {
    forall id | id in t.store.sessions && !DueOn(t, id) ensures a.sessions[id] == t.store.sessions[id] {
      SameDueOn(s, t, id);
    }
  }

  /** The whole operation took effect in the store at this step. */
  lemma ServedMatches(s: State, t: State, a: Store, b: Store, game: string)
    requires Matches(s, a) && SameDue(s, t) && !DueOn(s, game)
    requires Agree(t.store, b, game) && OnlyOn(s.store, t.store, game) && OnlyOn(a, b, game)
    ensures Matches(t, b)
  {
    forall id | id in t.store.sessions && !DueOn(t, id) ensures b.sessions[id] == t.store.sessions[id] {
      SameDueOn(s, t, id);
    }
    forall r | r in t.reqs && Due(t.reqs[r])
      ensures t.reqs[r].game in b.sessions && b.sessions[t.reqs[r].game] == Written(t.reqs[r])
    {
      assert r in s.reqs && Due(s.reqs[r]) && t.reqs[r].game == s.reqs[r].game;
      assert s.reqs[r].game != game;
    }
  }

  ghost predicate OthersStand(s: State, t: State, r: nat) {
    && r in s.reqs && r in t.reqs && t.reqs[r].game == s.reqs[r].game
    && t.reqs.Keys == s.reqs.Keys && (forall x | x in s.reqs && x != r :: t.reqs[x] == s.reqs[x])
  }

  lemma DueOnOthers(s: State, t: State, r: nat, id: string)
    requires OthersStand(s, t, r)
    ensures id != s.reqs[r].game ==> (DueOn(s, id) <==> DueOn(t, id))
  {
    if id != s.reqs[r].game {
      if DueOn(s, id) {
        var x :| x in s.reqs && Due(s.reqs[x]) && s.reqs[x].game == id;
        assert x in t.reqs && Due(t.reqs[x]) && t.reqs[x].game == id;
      }
      if DueOn(t, id) {
        var x :| x in t.reqs && Due(t.reqs[x]) && t.reqs[x].game == id;
        assert x in s.reqs && Due(s.reqs[x]) && s.reqs[x].game == id;
      }
    }
  }

  /** The operation was decided at this step, its session still to be written. */
  lemma DecidedMatches(s: State, t: State, served: Store, a: Store, b: Store, r: nat)
    requires Matches(s, a) && OthersStand(s, t, r) && !DueOn(s, s.reqs[r].game) && Due(t.reqs[r])
    requires t.store.sessions == s.store.sessions && s.reqs[r].game in s.store.sessions
    requires served.sessions == s.store.sessions[s.reqs[r].game := Written(t.reqs[r])]
    requires served.saves == t.store.saves && served.nextID == t.store.nextID && served.nextSave == t.store.nextSave
    requires Agree(served, b, s.reqs[r].game) && OnlyOn(a, b, s.reqs[r].game)
    ensures Matches(t, b)
  {
    var game := s.reqs[r].game;
    assert DueOn(t, game);
    forall x | x in t.reqs && Due(t.reqs[x])
      ensures t.reqs[x].game in b.sessions && b.sessions[t.reqs[x].game] == Written(t.reqs[x])
    {
      if x != r { assert x in s.reqs && Due(s.reqs[x]) && s.reqs[x].game != game; }
    }
    forall id | id in t.store.sessions && !DueOn(t, id) ensures b.sessions[id] == t.store.sessions[id] {
      DueOnOthers(s, t, r, id);
    }
  }

  /** A decided session is written. */
  lemma WrittenMatches(s: State, t: State, a: Store, r: nat)
    requires Matches(s, a) && OthersStand(s, t, r) && Due(s.reqs[r]) && !Due(t.reqs[r])
    requires s.reqs[r].game in s.store.sessions
    requires t.store.sessions == s.store.sessions[s.reqs[r].game := Written(s.reqs[r])]
    requires t.store.saves == s.store.saves && t.store.nextID == s.store.nextID && t.store.nextSave == s.store.nextSave
    ensures Matches(t, a)
  {
    var game := s.reqs[r].game;
    forall id | id in t.store.sessions && !DueOn(t, id) ensures a.sessions[id] == t.store.sessions[id] {
      DueOnOthers(s, t, r, id);
    }
  }

  // ----- where each operation is decided -----

  /** Refused at its first look at the store, or a delete: done in that step. */
  lemma LoadDecides(w: World, s: State, r: nat, seed: nat, now: int)
    requires r in s.reqs && s.reqs[r].pc.AtLoad? && !s.reqs[r].op.DeleteSaveOp?
    ensures var q, t := s.reqs[r], LoadStep(w, s, r);
            && OthersStand(s, t, r) && !Due(t.reqs[r]) && t.reqs[r].asked == q.asked && t.reqs[r].user == q.user
            && (t.reqs[r].pc.AtUnlock? ==>
                  ServeOp(w, s.store, q.user, q.game, q.op, seed, now) == (t.store, t.reqs[r].pc.reply))
            && (!t.reqs[r].pc.AtUnlock? ==> t.store == s.store && Decided(t.reqs[r]).None?)
  {
  }

  /** A turn or a restart whose engine run failed is done where it failed. */
  lemma TurnDecides(w: World, s: State, r: nat, seed: nat, now: int)
    requires r in s.reqs && HoldsStored(s, s.reqs[r]) && Checked(w, s.reqs[r])
    requires s.reqs[r].op.PlayOp? || s.reqs[r].op.RestartOp?
    ensures var q, t := s.reqs[r], WorkStep(w, s, r, seed, now);
            && t == Move(s, r, t.reqs[r].pc) && !Due(t.reqs[r])
            && (t.reqs[r].pc.AtUnlock? ==>
                  ServeOp(w, s.store, q.user, q.game, q.op, seed, now) == (s.store, t.reqs[r].pc.reply))
            && (!t.reqs[r].pc.AtUnlock? ==> Decided(t.reqs[r]).None?)
  {
  }

  /** A save or a restore is decided at its work. */
  lemma SaveDecides(w: World, s: State, r: nat, seed: nat, now: int)
    requires r in s.reqs && HoldsStored(s, s.reqs[r])
    requires s.reqs[r].op.SaveOp? || s.reqs[r].op.RestoreOp?
    ensures var q, t := s.reqs[r], WorkStep(w, s, r, seed, now);
            var (served, reply) := ServeOp(w, s.store, q.user, q.game, q.op, seed, now);
            && OthersStand(s, t, r) && t.reqs[r].asked == q.asked && t.reqs[r].user == q.user
            && Decided(t.reqs[r]) == Some(reply)
            && (if t.reqs[r].pc.AtUnlock? then served == s.store && t.store == s.store
                else && Due(t.reqs[r]) && t.store.sessions == s.store.sessions
                     && served == t.store.(sessions := s.store.sessions[q.game := Written(t.reqs[r])],
                                           updated := s.store.updated[q.game := now]))
  {
    WorkIsServe(w, s, r, seed, now);
    WorkHands(w, s, r, seed, now);
  }

  lemma WorkHands(w: World, s: State, r: nat, seed: nat, now: int)
    requires r in s.reqs && s.reqs[r].pc.AtWork?
    requires s.reqs[r].op.SaveOp? || s.reqs[r].op.RestoreOp?
    ensures var q, t := s.reqs[r], WorkStep(w, s, r, seed, now);
            && OthersStand(s, t, r) && t.reqs[r].asked == q.asked && t.reqs[r].user == q.user
            && (t.reqs[r].pc.AtUnlock? || Due(t.reqs[r]))
  {
  }

  /** The conditional write of a due session, under one process, succeeds. */
  lemma DueCommits(s: State, r: nat, now: int)
    requires r in s.reqs && Due(s.reqs[r]) && UpToDate(s, s.reqs[r])
    requires s.reqs[r].pc.next.id == s.reqs[r].game && s.reqs[r].pc.next.userID == s.reqs[r].pc.base.userID
    requires s.reqs[r].pc.next.version == s.reqs[r].pc.base.version
    ensures var q, t := s.reqs[r], CommitStep(s, r, now);
            && OthersStand(s, t, r) && t.reqs[r].asked == q.asked && t.reqs[r].user == q.user && !Due(t.reqs[r])
            && Decided(t.reqs[r]) == Decided(q)
            && q.game in s.store.sessions && t.store.sessions == s.store.sessions[q.game := Written(q)]
            && t.store.saves == s.store.saves && t.store.nextID == s.store.nextID
            && t.store.nextSave == s.store.nextSave
  {
  }
}
