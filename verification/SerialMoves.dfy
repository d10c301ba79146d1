/** Every step of a run of one process, matched: the requests inside a lock, those outside any lock, and the steps
    that only wait. */
module SerialMoves {
  import opened Text
  import opened GameStore
  import opened Service
  import opened SaveRestore
  import opened Protocol
  import opened ProtocolSafety
  import opened ProtocolTheorems
  import opened ProtocolEnds
  import opened SerialMatch
  import opened SerialRuns

  // ----- the steps that are not inside a lock -----

  lemma LockComesTo(w: World, s: State, step: Step)
    requires Enabled(w, s, step) && (step.Enter? || step.Lock? || step.Unlock?)
    ensures Silent(s, Next(w, s, step), step.r)
  {
  }

  lemma ExitLeaves(w: World, s: State, r: nat)
    requires Enabled(w, s, Exit(r))
    ensures var t := Next(w, s, Exit(r));
            && t.store == s.store && t.reqs == s.reqs - {r}
            && r in s.reqs && !Due(s.reqs[r]) && Decided(s.reqs[r]).Some?
  {
  }

  lemma ExitIsMatched(w: World, s: State, r: nat, a: Store)
    requires Matches(s, a) && Enabled(w, s, Exit(r))
    ensures Matched(w, s, Next(w, s, Exit(r)), a, [], r)
  {
    ExitLeaves(w, s, r);
    LeftIsMatched(w, s, Next(w, s, Exit(r)), a, r);
  }

  lemma LeftIsMatched(w: World, s: State, t: State, a: Store, r: nat)
    requires Matches(s, a) && t.store == s.store && t.reqs == s.reqs - {r}
    requires r in s.reqs && !Due(s.reqs[r]) && Decided(s.reqs[r]).Some?
    ensures Matched(w, s, t, a, [], r)
  {
    assert SameDue(s, t);
    SilentMatches(s, t, a);
  }

  lemma RequestIsMatched(w: World, s: State, step: Step, process: nat, a: Store) returns (xs: seq<Served>)
    requires Single(w, s, process) && Matches(s, a) && Enabled(w, s, step) && OfSomeRequest(step)
    ensures step.r in s.reqs && Matched(w, s, Next(w, s, step), a, xs, step.r)
  {
    if step.LoadIt? {
      xs := LoadIsMatched(w, s, process, step.r, a);
    } else if step.Work? {
      xs := WorkIsMatched(w, s, process, step.r, step.seed, step.now, a);
    } else if step.Commit? {
      xs := CommitIsMatched(w, s, process, step.r, step.now, a);
    } else if step.Exit? {
      ExitIsMatched(w, s, step.r, a);
      xs := [];
    } else {
      LockComesTo(w, s, step);
      SilentIsMatched(w, s, Next(w, s, step), a, step.r);
      xs := [];
    }
  }

  /** A request served outside any lock: a new game, or a save deleted. */
  function Outside(step: Step): Served
    requires step.Open? || step.DropSave?
  {
    if step.Open? then Served(NewGame(step.user, step.story), step.seed, step.now)
    else Served(On(step.user, step.game, DeleteSaveOp(step.save)), 0, 0)
  }

  /** What whoever asked for it is answered. */
  function OutsideAnswer(w: World, s: State, step: Step): Reply
    requires Enabled(w, s, step) && (step.Open? || step.DropSave?)
  {
    if step.Open? then
      var result := w.start(w.stories[step.story], step.seed).result;
      Answer(Create(s.store, Opening(step.user, w.stories[step.story], result), step.now).1)
    else
      var d := DeleteSave(s.store, step.user, step.game, step.save).1;
      if d.Ok? then SaveGone(d.value) else Refused(d.error)
  }

  lemma OpenCreates(w: World, s: State, step: Step, a: Store)
    requires step.Open? && Enabled(w, s, step)
    ensures var t, x := Next(w, s, step), Outside(step);
            var session := Opening(step.user, w.stories[step.story], w.start(w.stories[step.story], step.seed).result);
            && session.userID != "" && t.reqs == s.reqs && t.store == Create(s.store, session, step.now).0
            && Serve(w, a, x.req, x.seed, x.now)
               == (Create(a, session, step.now).0, Answer(Create(a, session, step.now).1))
            && OutsideAnswer(w, s, step) == Answer(Create(s.store, session, step.now).1)
  {
  }

  /** Both stores give the new game the same identifier. */
  lemma CreateAdds(w: World, s: Store, a: Store, session: Session, now: int)
      returns (id: string, stored: Session, t: Store, b: Store)
    requires WellFormed(w.fold, s) && a.nextID == s.nextID && session.userID != ""
    ensures t == Create(s, session, now).0 && b == Create(a, session, now).0
    ensures Create(a, session, now).1 == Create(s, session, now).1
    ensures id !in s.sessions && t.sessions == s.sessions[id := stored] && b.sessions == a.sessions[id := stored]
    ensures t.saves == s.saves && b.saves == a.saves && t.nextSave == s.nextSave && b.nextSave == a.nextSave
    ensures t.nextID == b.nextID
  {
    CreateKeepsWellFormed(w.fold, s, session, now);
    id := Format(s.nextID + 1);
    stored := session.(id := id, version := 1);
    t, b := Create(s, session, now).0, Create(a, session, now).0;
  }

  lemma AddMatches(s: State, t: State, a: Store, b: Store, id: string, stored: Session)
    requires Matches(s, a) && t.reqs == s.reqs && id !in s.store.sessions
    requires t.store.sessions == s.store.sessions[id := stored] && b.sessions == a.sessions[id := stored]
    requires t.store.saves == b.saves && t.store.nextSave == b.nextSave && t.store.nextID == b.nextID
    ensures Matches(t, b)
  {
    assert SameDue(s, t);
    forall i | i in t.store.sessions && !DueOn(t, i) ensures b.sessions[i] == t.store.sessions[i] {
      SameDueOn(s, t, i);
    }
  }

  lemma OpenIsServed(w: World, s: State, step: Step, a: Store)
    requires WellFormed(w.fold, s.store) && Matches(s, a) && step.Open? && Enabled(w, s, step)
    ensures var x := Outside(step);
            var (b, answer) := Serve(w, a, x.req, x.seed, x.now);
            Matches(Next(w, s, step), b) && answer == OutsideAnswer(w, s, step)
  {
    var session := Opening(step.user, w.stories[step.story], w.start(w.stories[step.story], step.seed).result);
    OpenCreates(w, s, step, a);
    var id, stored, t, b := CreateAdds(w, s.store, a, session, step.now);
    AddMatches(s, Next(w, s, step), a, b, id, stored);
  }

  lemma DropIsServed(w: World, s: State, step: Step, a: Store)
    requires Requests(w, s) && AllUpToDate(s) && Matches(s, a) && step.DropSave? && Enabled(w, s, step)
    ensures var x := Outside(step);
            var (b, answer) := Serve(w, a, x.req, x.seed, x.now);
            Matches(Next(w, s, step), b) && answer == OutsideAnswer(w, s, step)
  {
    var t, x := Next(w, s, step), Outside(step);
    SameOwner(w, s, a, step.user, step.game);
    assert Held(a, step.game) == Held(s.store, step.game);
    var (b, d) := DeleteSave(a, step.user, step.game, step.save);
    assert d == DeleteSave(s.store, step.user, step.game, step.save).1;
    assert Serve(w, a, x.req, x.seed, x.now) == (b, if d.Ok? then SaveGone(d.value) else Refused(d.error));
    assert SameDue(s, t);
    forall id | id in t.store.sessions && !DueOn(t, id)
      ensures a.sessions[id] == t.store.sessions[id]
    {
      SameDueOn(s, t, id);
    }
  }

  /** A session still to be written has the owner it had. */
  lemma SameOwner(w: World, s: State, a: Store, user: string, game: string)
    requires Requests(w, s) && AllUpToDate(s) && Matches(s, a)
    ensures Owns(a, user, game) <==> Owns(s.store, user, game)
  {
    if game in s.store.sessions && DueOn(s, game) {
      var r :| r in s.reqs && Due(s.reqs[r]) && s.reqs[r].game == game;
      assert ReqOk(w, s.log, s.reqs[r]) && UpToDate(s, s.reqs[r]);
    }
  }

  lemma ArriveStep(w: World, s: State, step: Step, a: Store)
    requires Matches(s, a) && step.Arrive? && Enabled(w, s, step)
    ensures Matches(Next(w, s, step), a)
  {
    assert SameDue(s, Next(w, s, step));
    SilentMatches(s, Next(w, s, step), a);
  }
}
