/** What each step on an invitation answers and stores, and where every account of a run came from. */
module InvitationAnswers {
  import opened Text
  import opened Invitations

  /** Nothing but the redemptions in flight is different, and of those only `r`. */
  ghost predicate OnlyPending(s: State, t: State, r: nat) {
    t.(pending := s.pending) == s && t.pending - {r} == s.pending - {r}
  }

  /** A lookup goes on exactly when the token is not empty and names an unspent row that has not expired, the address
      given is the invited one and the password can be hashed. It carries on the hash of that password, never the
      password. */
  lemma LookUpAnswers(w: World, s: State, r: nat, token: string, email: string, password: string, now: int)
    requires r !in s.pending
    ensures var t := Next(w, s, LookUp(r, token, email, password, now));
            var hash := w.hashToken(token);
            var invited := token != "" && hash in s.db.invitations && s.db.invitations[hash].redeemedAt == None
                           && now < s.db.invitations[hash].expiresAt
                           && w.normalize(email) == Some(s.db.invitations[hash].email);
            && OnlyPending(s, t, r)
            && (r in t.pending <==> invited && w.hashPassword(password).Some?)
            && (r in t.pending ==> t.pending[r].hash == hash && t.pending[r].at == now
                                   && Some(t.pending[r].email) == w.normalize(email)
                                   && Some(t.pending[r].passwordHash) == w.hashPassword(password))
            && (r !in t.pending ==> Check(w, s.db, token, email, password, now)
                                    == Err(if invited then WeakPassword else NotInvited))
  {
    assert s.pending - {r} == s.pending;
  }

  /** The row a transaction finds when it can go through. */
  ghost predicate Open(db: Db, p: Pending) {
    && p.hash in db.invitations && db.invitations[p.hash].redeemedAt == None
    && p.at < db.invitations[p.hash].expiresAt && db.invitations[p.hash].email == p.email
  }

  ghost predicate Taken(db: Db, email: string) { exists id :: id in db.users && db.users[id].email == email }

  /** A transaction is refused exactly when the row is not open any more or an account has the address, and then it
      stores nothing. */
  lemma TransactIsRefused(w: World, s: State, r: nat)
    requires r in s.pending
    ensures var (p, t, u) := (s.pending[r], Next(w, s, Transact(r)), TransactResult(s, r).1);
            && (u.Err? <==> !Open(s.db, p) || Taken(s.db, p.email))
            && (u.Err? ==> u == Err(if Open(s.db, p) then EmailTaken else NotInvited)
                           && t == s.(pending := s.pending - {r}))
  {
  }

  /** Otherwise it adds one account, with the address and the password hash that the lookup carried, answers with it,
      and marks the row. */
  lemma TransactAnswers(w: World, s: State, r: nat)
    requires UsersOk(s.db) && r in s.pending && Open(s.db, s.pending[r]) && !Taken(s.db, s.pending[r].email)
    ensures var (p, t, u) := (s.pending[r], Next(w, s, Transact(r)), TransactResult(s, r).1);
            && u.Ok? && u.value.id !in s.db.users && t.db.users == s.db.users[u.value.id := u.value]
            && u.value.email == p.email && u.value.passwordHash == p.passwordHash
            && p.hash in t.db.invitations
            && t.db.invitations[p.hash]
               == s.db.invitations[p.hash].(redeemedAt := Some(p.at), userID := Some(u.value.id))
            && t.db.invitations - {p.hash} == s.db.invitations - {p.hash}
            && t.created == s.created[p.hash := Account(u.value.id, p.at)]
            && t.pending == s.pending - {r} && t.issued == s.issued && t.swept == s.swept
  {
  }

  /** Issuing stores one row, unspent, for the normalised address and until one TTL from now; an address that will not
      normalise stores nothing. */
  lemma IssueAnswers(w: World, s: State, token: string, email: string, now: int)
    requires Inv(w, s) && Enabled(w, s, Issue(token, email, now))
    ensures var t := Next(w, s, Issue(token, email, now));
            var hash := w.hashToken(token);
            if w.normalize(email).None? then t == s
            else
              && hash !in s.db.invitations && hash in t.db.invitations && hash in t.issued
              && t.db.invitations[hash] == Invitation(w.normalize(email).value, now + w.ttl, None, None)
              && t.issued[hash] == Issued(w.normalize(email).value, now + w.ttl)
              && t.db.invitations - {hash} == s.db.invitations && t.issued - {hash} == s.issued
              && t.db.users == s.db.users && t.pending == s.pending && t.created == s.created && t.swept == s.swept
  {
    assert forall h | h in s.db.invitations :: RowOk(s, h);
  }

  /** A sweep removes exactly the unspent rows that have expired and the spent ones a TTL past their redemption. */
  lemma SweepAnswers(w: World, s: State, now: int, hash: Hash)
    ensures var t := Next(w, s, Sweep(now));
            && (hash in t.db.invitations <==>
                  && hash in s.db.invitations
                  && match s.db.invitations[hash].redeemedAt
                     case None => now <= s.db.invitations[hash].expiresAt
                     case Some(at) => now <= at + w.ttl)
            && (hash in t.db.invitations ==> t.db.invitations[hash] == s.db.invitations[hash])
            && t.db.users == s.db.users && t.pending == s.pending && t.issued == s.issued && t.created == s.created
            && t.swept.Some? && now <= t.swept.value
  {
  }

  /** Registering without an invitation adds one account, unless the address has one. */
  lemma RegisterAnswers(w: World, s: State, email: string, passwordHash: string)
    requires UsersOk(s.db)
    ensures var t := Next(w, s, Register(email, passwordHash));
            var id := t.db.lastUser;
            var r := CreateUser(s.db, email, passwordHash).1;
            && t.(db := s.db) == s && t.db.invitations == s.db.invitations
            && if Taken(s.db, email) then t == s && r == Err(EmailTaken)
               else
                 id !in s.db.users && r == Ok(User(id, email, passwordHash)) && t.db.users == s.db.users[id := r.value]
  {
  }

  /** The table takes one row for a token's hash, and refuses a second. */
  lemma CreateInvitationAnswers(db: Db, hash: Hash, invitation: Invitation)
    ensures var (t, r) := CreateInvitation(db, hash, invitation);
            if hash in db.invitations then t == db && r == Err(Storage)
            else
              && r == Ok(()) && t.users == db.users && t.lastUser == db.lastUser
              && hash in t.invitations && t.invitations[hash] == invitation && t.invitations - {hash} == db.invitations
  {
  }

  // ----- where accounts come from -----

  predicate LooksUp(w: World, step: Step, hash: Hash, at: int, email: string, passwordHash: string) {
    && step.LookUp? && step.token != "" && w.hashToken(step.token) == hash && step.now == at
    && w.normalize(step.email) == Some(email) && w.hashPassword(step.password) == Some(passwordHash)
  }

  ghost predicate LookedUp(w: World, steps: seq<Step>, hash: Hash, at: int, email: string, passwordHash: string) {
    exists x :: x in steps && LooksUp(w, x, hash, at, email, passwordHash)
  }

  ghost predicate PendingSourced(w: World, s: State, steps: seq<Step>) {
    forall r | r in s.pending ::
      var p := s.pending[r]; LookedUp(w, steps, p.hash, p.at, p.email, p.passwordHash)
  }

  /** The account an invitation made was asked for by a lookup of its token, with that account's address and with a
      password whose hash it keeps. */
  ghost predicate Invited(w: World, s: State, steps: seq<Step>, h: Hash)
    requires h in s.created
  {
    var a := s.created[h];
    && a.user in s.db.users
    && LookedUp(w, steps, h, a.at, s.db.users[a.user].email, s.db.users[a.user].passwordHash)
  }

  /** An account is one an invitation made, or was registered without. */
  ghost predicate UserSourced(s: State, steps: seq<Step>, id: nat)
    requires id in s.db.users
  {
    && s.db.users[id].id == id
    && ((exists h :: h in s.created && s.created[h].user == id)
        || Register(s.db.users[id].email, s.db.users[id].passwordHash) in steps)
  }

  ghost predicate Sourced(w: World, s: State, steps: seq<Step>) {
    && PendingSourced(w, s, steps)
    && (forall h | h in s.created :: Invited(w, s, steps, h))
    && (forall id | id in s.db.users :: UserSourced(s, steps, id))
  }

  /** Only the redemptions in flight changed. */
  lemma PendingKeepsSourced(w: World, s: State, t: State, steps: seq<Step>)
    requires Sourced(w, s, steps) && t.(pending := s.pending) == s && PendingSourced(w, t, steps)
    ensures Sourced(w, t, steps)
  {
    forall h | h in t.created ensures Invited(w, t, steps, h) { assert Invited(w, s, steps, h); }
    forall id | id in t.db.users ensures UserSourced(t, steps, id) { assert UserSourced(s, steps, id); }
  }

  /** Accounts, redemptions and what was made of invitations stayed. */
  lemma SameAccountsSourced(w: World, s: State, t: State, steps: seq<Step>)
    requires Sourced(w, s, steps)
    requires t.db.users == s.db.users && t.pending == s.pending && t.created == s.created
    ensures Sourced(w, t, steps)
  {
    forall h | h in t.created ensures Invited(w, t, steps, h) { assert Invited(w, s, steps, h); }
    forall id | id in t.db.users ensures UserSourced(t, steps, id) { assert UserSourced(s, steps, id); }
  }

  lemma LookUpKeepsSourced(w: World, s: State, steps: seq<Step>, step: Step)
    requires step.LookUp? && step.r !in s.pending && Sourced(w, s, steps) && step in steps
    ensures Sourced(w, Next(w, s, step), steps)
  {
    var t := Next(w, s, step);
    LookUpAnswers(w, s, step.r, step.token, step.email, step.password, step.now);
    forall r | r in t.pending
      ensures var p := t.pending[r]; LookedUp(w, steps, p.hash, p.at, p.email, p.passwordHash)
    {
      if r == step.r {
        assert LooksUp(w, step, t.pending[r].hash, step.now, t.pending[r].email, t.pending[r].passwordHash);
      } else {
        assert r in s.pending - {step.r} && (t.pending - {step.r})[r] == (s.pending - {step.r})[r];
      }
    }
    PendingKeepsSourced(w, s, t, steps);
  }

  lemma RegisterKeepsSourced(w: World, s: State, steps: seq<Step>, step: Step)
    requires step.Register? && UsersOk(s.db) && Sourced(w, s, steps) && step in steps
    ensures Sourced(w, Next(w, s, step), steps)
  {
    var t := Next(w, s, step);
    RegisterAnswers(w, s, step.email, step.passwordHash);
    forall h | h in t.created ensures Invited(w, t, steps, h) { assert Invited(w, s, steps, h); }
    forall id | id in t.db.users ensures UserSourced(t, steps, id) {
      if id in s.db.users { assert UserSourced(s, steps, id); }
    }
  }

  lemma TransactKeepsSourced(w: World, s: State, steps: seq<Step>, r: nat)
    requires Inv(w, s) && Sourced(w, s, steps) && r in s.pending
    requires Open(s.db, s.pending[r]) && !Taken(s.db, s.pending[r].email)
    ensures Sourced(w, Next(w, s, Transact(r)), steps)
  {
    var p, t := s.pending[r], Next(w, s, Transact(r));
    TransactAnswers(w, s, r);
    forall h | h in t.created ensures Invited(w, t, steps, h) {
      if h != p.hash { assert Invited(w, s, steps, h); }
    }
    assert RowOk(s, p.hash);
    TransactKeepsUsers(w, s, steps, r);
  }

  lemma TransactKeepsUsers(w: World, s: State, steps: seq<Step>, r: nat)
    requires UsersOk(s.db) && r in s.pending && s.pending[r].hash !in s.created
    requires forall id | id in s.db.users :: UserSourced(s, steps, id)
    requires Open(s.db, s.pending[r]) && !Taken(s.db, s.pending[r].email)
    ensures forall id | id in Next(w, s, Transact(r)).db.users :: UserSourced(Next(w, s, Transact(r)), steps, id)
  {
    var p, t := s.pending[r], Next(w, s, Transact(r));
    TransactAnswers(w, s, r);
    forall id | id in t.db.users ensures UserSourced(t, steps, id) {
      if id in s.db.users {
        assert UserSourced(s, steps, id);
        if h :| h in s.created && s.created[h].user == id { assert h in t.created && t.created[h].user == id; }
      } else {
        assert p.hash in t.created && t.created[p.hash].user == id;
      }
    }
  }

  lemma LongerPast(w: World, s: State, past: seq<Step>, step: Step)
    requires Sourced(w, s, past)
    ensures Sourced(w, s, past + [step])
  {
    assert forall x | x in past :: x in past + [step];
  }

  lemma StepKeepsSourced(w: World, s: State, past: seq<Step>, step: Step)
    requires Inv(w, s) && Enabled(w, s, step) && Sourced(w, s, past)
    ensures Sourced(w, Next(w, s, step), past + [step])
  {
    var t, steps := Next(w, s, step), past + [step];
    LongerPast(w, s, past, step);
    match step
    case Transact(r) =>
      TransactIsRefused(w, s, r);
      if Open(s.db, s.pending[r]) && !Taken(s.db, s.pending[r].email) {
        TransactKeepsSourced(w, s, steps, r);
      } else {
        PendingKeepsSourced(w, s, t, steps);
      }
    case Register(email, passwordHash) => RegisterKeepsSourced(w, s, steps, step);
    case LookUp(r, token, email, password, now) => LookUpKeepsSourced(w, s, steps, step);
    case Issue(token, email, now) => SameAccountsSourced(w, s, t, steps);
    case Sweep(now) => SameAccountsSourced(w, s, t, steps);
  }

  lemma {:induction false} RunKeepsSourced(w: World, s: State, past: seq<Step>, steps: seq<Step>)
    requires Inv(w, s) && Sourced(w, s, past) && Possible(w, s, steps)
    ensures Sourced(w, After(w, s, steps), past + steps)
    decreases |steps|
  {
    if steps == [] {
      assert past + steps == past;
    } else {
      StepKeepsInv(w, s, steps[0]);
      StepKeepsSourced(w, s, past, steps[0]);
      assert past + steps == past + [steps[0]] + steps[1..];
      RunKeepsSourced(w, Next(w, s, steps[0]), past + [steps[0]], steps[1..]);
    }
  }

  /** In every run, every account stored has its source in the run: it was registered without an invitation, with that
      address and that password hash, or it is the account of an invitation whose token was looked up with an address
      that normalises to its own and a password that hashes to the hash it keeps. */
  lemma EveryAccountHasItsSource(w: World, steps: seq<Step>, id: nat)
    requires Possible(w, START, steps) && id in After(w, START, steps).db.users
    ensures var s := After(w, START, steps);
            var user := s.db.users[id];
            && user.id == id
            && (Register(user.email, user.passwordHash) in steps
                || exists h, x :: h in s.created && s.created[h].user == id && x in steps
                                  && LooksUp(w, x, h, s.created[h].at, user.email, user.passwordHash))
  {
    RunKeepsSourced(w, START, [], steps);
    assert [] + steps == steps;
    var s := After(w, START, steps);
    assert UserSourced(s, steps, id);
    if h :| h in s.created && s.created[h].user == id {
      assert Invited(w, s, steps, h);
    }
  }
}
