/** Invitations to register (internal/invite/invite.go, internal/database/invitations.go): issuing, the
    lookup-then-store redemption, and the sweep. */
module Invitations {
  import opened Text

  type Hash = string

  datatype Invitation = Invitation(email: string, expiresAt: int, redeemedAt: Option<int>, userID: Option<nat>)

  datatype User = User(id: nat, email: string, passwordHash: string)

  datatype Error = NotInvited | EmailTaken | WeakPassword | Storage

  type Result<+T> = Fallible<T, Error>

  /** The two tables. Row identifiers of users only grow: no code deletes an account. */
  datatype Db = Db(invitations: map<Hash, Invitation>, users: map<nat, User>, lastUser: nat)

  // ----- the store, each call one transaction -----

  function CreateInvitation(db: Db, hash: Hash, invitation: Invitation): (Db, Result<()>) {
    if hash in db.invitations then (db, Err(Storage))
    else (db.(invitations := db.invitations[hash := invitation]), Ok(()))
  }

  function InvitationByToken(db: Db, hash: Hash): Result<Invitation> {
    if hash in db.invitations then Ok(db.invitations[hash]) else Err(NotInvited)
  }

  predicate EmailHasAccount(db: Db, email: string) { exists id :: id in db.users && db.users[id].email == email }

  function AddUser(db: Db, email: string, passwordHash: string): Db {
    db.(lastUser := db.lastUser + 1, users := db.users[db.lastUser + 1 := User(db.lastUser + 1, email, passwordHash)])
  }

  function CreateUser(db: Db, email: string, passwordHash: string): (Db, Result<User>) {
    if EmailHasAccount(db, email) then (db, Err(EmailTaken))
    else (AddUser(db, email, passwordHash), Ok(User(db.lastUser + 1, email, passwordHash)))
  }

  predicate Redeemable(invitation: Invitation, at: int) {
    invitation.redeemedAt.None? && at < invitation.expiresAt
  }

  function Redeem(db: Db, hash: Hash, at: int, email: string, passwordHash: string): (Db, Result<User>) {
    if hash !in db.invitations || !Redeemable(db.invitations[hash], at) || db.invitations[hash].email != email
    then (db, Err(NotInvited))
    else if EmailHasAccount(db, email) then (db, Err(EmailTaken))
    else
      var added := AddUser(db, email, passwordHash);
      var spent := db.invitations[hash].(redeemedAt := Some(at), userID := Some(added.lastUser));
      (added.(invitations := db.invitations[hash := spent]), Ok(User(added.lastUser, email, passwordHash)))
  }

  predicate Spent(invitation: Invitation, expiredBefore: int, redeemedBefore: int) {
    if invitation.redeemedAt.None? then invitation.expiresAt < expiredBefore
    else invitation.redeemedAt.value < redeemedBefore
  }

  function DeleteSpent(db: Db, expiredBefore: int, redeemedBefore: int): Db {
    db.(invitations := map h | h in db.invitations && !Spent(db.invitations[h], expiredBefore, redeemedBefore)
                           :: db.invitations[h])
  }

  // ----- the sweep -----

  /** A sweep at `now` never removes an invitation that could be redeemed then or later, and keeps a redeemed
      one for at least the TTL; whatever else is expired or spent goes. */
  lemma SweepIsSafe(db: Db, now: int, ttl: int, hash: Hash)
    requires hash in db.invitations && ttl > 0
    ensures var i := db.invitations[hash];
            var kept := hash in DeleteSpent(db, now, now - ttl).invitations;
            && (kept ==> DeleteSpent(db, now, now - ttl).invitations[hash] == i)
            && ((exists t :: t >= now && Redeemable(i, t)) ==> kept)
            && (i.redeemedAt.Some? && now <= i.redeemedAt.value + ttl ==> kept)
            && (kept ==> if i.redeemedAt.Some? then now <= i.redeemedAt.value + ttl else now <= i.expiresAt)
  {
  }

  // ----- concurrent redemption -----

  /** What the service calls and cannot see. HashPassword refuses a password of the wrong length. */
  datatype World = World(ttl: int, normalize: string -> Option<string>, hashPassword: string -> Option<string>,
                         hashToken: string -> Hash)

  /** A redemption between its lookup and its transaction. */
  datatype Pending = Pending(hash: Hash, at: int, email: string, passwordHash: string)

  datatype Issued = Issued(email: string, expiresAt: int)

  datatype Account = Account(user: nat, at: int)

  /** `issued`, `created` and `swept` record the past: every invitation ever issued, the account each one
      made, and the latest sweep. No step reads them but the rule that a token is never issued twice. */
  datatype State = State(db: Db, pending: map<nat, Pending>, issued: map<Hash, Issued>,
                         created: map<Hash, Account>, swept: Option<int>)

  const START: State := State(Db(map[], map[], 0), map[], map[], map[], None)

  datatype Step =
    | Issue(token: string, email: string, now: int)
    | LookUp(r: nat, token: string, email: string, password: string, now: int)
    | Transact(r: nat)
    | Sweep(now: int)
    | Register(email: string, passwordHash: string)

  predicate Enabled(w: World, s: State, step: Step) {
    match step
    case Issue(token, email, now) => w.hashToken(token) !in s.issued
    case LookUp(r, token, email, password, now) => r !in s.pending
    case Transact(r) => r in s.pending
    case Sweep(now) => true
    case Register(email, passwordHash) => true
  }

  /** Service.Redeem up to the store: everything is checked against the lookup before the password is hashed. */
  function Check(w: World, db: Db, token: string, email: string, password: string, now: int): Result<Pending> {
    var hash := w.hashToken(token);
    var found := InvitationByToken(db, hash);
    var address := w.normalize(email);
    if token == "" || found.Err? || !Redeemable(found.value, now) || address.None? || address.value != found.value.email
    then Err(NotInvited)
    else if w.hashPassword(password).None? then Err(WeakPassword)
    else Ok(Pending(hash, now, address.value, w.hashPassword(password).value))
  }

  function TransactResult(s: State, r: nat): (Db, Result<User>)
    requires r in s.pending
  {
    var p := s.pending[r];
    Redeem(s.db, p.hash, p.at, p.email, p.passwordHash)
  }

  function Next(w: World, s: State, step: Step): State
    requires Enabled(w, s, step)
  {
    match step
    case Issue(token, email, now) =>
      var address := w.normalize(email);
      var hash := w.hashToken(token);
      if address.None? then s
      else
        var (db, r) := CreateInvitation(s.db, hash, Invitation(address.value, now + w.ttl, None, None));
        if r.Err? then s else s.(db := db, issued := s.issued[hash := Issued(address.value, now + w.ttl)])
    case LookUp(r, token, email, password, now) =>
      var c := Check(w, s.db, token, email, password, now);
      if c.Err? then s else s.(pending := s.pending[r := c.value])
    case Transact(r) =>
      var p := s.pending[r];
      var (db, u) := TransactResult(s, r);
      var t := s.(db := db, pending := s.pending - {r});
      if u.Err? then t else t.(created := s.created[p.hash := Account(u.value.id, p.at)])
    case Sweep(now) =>
      s.(db := DeleteSpent(s.db, now, now - w.ttl),
         swept := Some(if s.swept.Some? && s.swept.value > now then s.swept.value else now))
    case Register(email, passwordHash) => s.(db := CreateUser(s.db, email, passwordHash).0)
  }

  ghost predicate Possible(w: World, s: State, steps: seq<Step>)
    decreases |steps|
  {
    steps == [] || (Enabled(w, s, steps[0]) && Possible(w, Next(w, s, steps[0]), steps[1..]))
  }

  function After(w: World, s: State, steps: seq<Step>): State
    requires Possible(w, s, steps)
    decreases |steps|
  {
    if steps == [] then s else After(w, Next(w, s, steps[0]), steps[1..])
  }

  // ----- the invariant -----

  /** The account an invitation made has the invited address and was made in time. */
  ghost predicate AccountOk(s: State, h: Hash)
    requires h in s.created
  {
    var a := s.created[h];
    && h in s.issued && a.user in s.db.users && s.db.users[a.user].email == s.issued[h].email
    && a.at < s.issued[h].expiresAt
  }

  /** A row is as it was issued, and is spent exactly when it made an account. */
  ghost predicate RowOk(s: State, h: Hash)
    requires h in s.db.invitations
  {
    var i := s.db.invitations[h];
    && h in s.issued && s.issued[h] == Issued(i.email, i.expiresAt)
    && (i.redeemedAt.Some? <==> h in s.created)
    && (h in s.created ==> i.redeemedAt == Some(s.created[h].at) && i.userID == Some(s.created[h].user))
  }

  /** An issued invitation that is no longer there was swept, and not too soon. */
  ghost predicate GoneOk(w: World, s: State, h: Hash)
    requires h in s.issued
  {
    h !in s.db.invitations ==>
      s.swept.Some? && (if h in s.created then s.created[h].at + w.ttl else s.issued[h].expiresAt) < s.swept.value
  }

  ghost predicate PendingOk(s: State, p: Pending) {
    p.hash in s.issued && p.email == s.issued[p.hash].email && p.at < s.issued[p.hash].expiresAt
  }

  ghost predicate UsersOk(db: Db) {
    && (forall id | id in db.users :: id <= db.lastUser)
    && (forall a, b | a in db.users && b in db.users && db.users[a].email == db.users[b].email :: a == b)
  }

  ghost predicate OneEach(s: State) {
    forall g, h | g in s.created && h in s.created && s.created[g].user == s.created[h].user :: g == h
  }

  ghost predicate Inv(w: World, s: State) {
    && UsersOk(s.db) && OneEach(s)
    && (forall h | h in s.db.invitations :: RowOk(s, h))
    && (forall h | h in s.created :: AccountOk(s, h))
    && (forall h | h in s.issued :: GoneOk(w, s, h))
    && (forall r | r in s.pending :: PendingOk(s, s.pending[r]))
  }

  lemma AddUserKeepsUsers(db: Db, email: string, passwordHash: string)
    requires UsersOk(db) && !EmailHasAccount(db, email)
    ensures UsersOk(AddUser(db, email, passwordHash))
    ensures db.lastUser + 1 !in db.users
  {
  }

  lemma TransactKeepsInv(w: World, s: State, r: nat)
    requires Inv(w, s) && r in s.pending && TransactResult(s, r).1.Ok?
    ensures Inv(w, Next(w, s, Transact(r)))
  {
    var p := s.pending[r];
    var t := Next(w, s, Transact(r));
    AddUserKeepsUsers(s.db, p.email, p.passwordHash);
    assert RowOk(s, p.hash);
    forall h | h in t.db.invitations ensures RowOk(t, h) { assert RowOk(s, h); }
    forall h | h in t.created ensures AccountOk(t, h) { if h != p.hash { assert AccountOk(s, h); } }
    forall h | h in t.issued ensures GoneOk(w, t, h) { assert GoneOk(w, s, h); }
    forall x | x in t.pending ensures PendingOk(t, t.pending[x]) { assert PendingOk(s, s.pending[x]); }
  }

  lemma SweepKeepsInv(w: World, s: State, now: int)
    requires Inv(w, s)
    ensures Inv(w, Next(w, s, Sweep(now)))
  {
    var t := Next(w, s, Sweep(now));
    forall h | h in t.db.invitations ensures RowOk(t, h) { assert RowOk(s, h); }
    forall h | h in t.created ensures AccountOk(t, h) { assert AccountOk(s, h); }
    forall h | h in t.issued ensures GoneOk(w, t, h) {
      assert GoneOk(w, s, h);
      if h in s.db.invitations { assert RowOk(s, h); }
    }
    forall x | x in t.pending ensures PendingOk(t, t.pending[x]) { assert PendingOk(s, s.pending[x]); }
  }

  lemma StepKeepsInv(w: World, s: State, step: Step)
    requires Inv(w, s) && Enabled(w, s, step)
    ensures Inv(w, Next(w, s, step))
  {
    var t := Next(w, s, step);
    match step
    case Issue(token, email, now) => IssueKeepsInv(w, s, step);
    case LookUp(r, token, email, password, now) =>
      var c := Check(w, s.db, token, email, password, now);
      if c.Ok? { assert RowOk(s, c.value.hash); }
      LookUpKeepsInv(w, s, t, r);
    case Transact(r) =>
      if TransactResult(s, r).1.Ok? { TransactKeepsInv(w, s, r); } else { LookUpKeepsInv(w, s, t, r); }
    case Sweep(now) => SweepKeepsInv(w, s, now);
    case Register(email, passwordHash) => RegisterKeepsInv(w, s, step);
  }

  lemma IssueKeepsInv(w: World, s: State, step: Step)
    requires Inv(w, s) && step.Issue? && Enabled(w, s, step)
    ensures Inv(w, Next(w, s, step))
  {
    var t := Next(w, s, step);
    forall h | h in t.db.invitations ensures RowOk(t, h) { if h in s.db.invitations { assert RowOk(s, h); } }
    forall h | h in t.created ensures AccountOk(t, h) { assert AccountOk(s, h); }
    forall h | h in t.issued ensures GoneOk(w, t, h) { if h in s.issued { assert GoneOk(w, s, h); } }
    forall x | x in t.pending ensures PendingOk(t, t.pending[x]) { assert PendingOk(s, s.pending[x]); }
  }

  lemma RegisterKeepsInv(w: World, s: State, step: Step)
    requires Inv(w, s) && step.Register?
    ensures Inv(w, Next(w, s, step))
  {
    var t := Next(w, s, step);
    if !EmailHasAccount(s.db, step.email) { AddUserKeepsUsers(s.db, step.email, step.passwordHash); }
    forall h | h in t.db.invitations ensures RowOk(t, h) { assert RowOk(s, h); }
    forall h | h in t.created ensures AccountOk(t, h) { assert AccountOk(s, h); }
    forall h | h in t.issued ensures GoneOk(w, t, h) { assert GoneOk(w, s, h); }
    forall x | x in t.pending ensures PendingOk(t, t.pending[x]) { assert PendingOk(s, s.pending[x]); }
  }

  /** Only the pending redemptions change. */
  lemma LookUpKeepsInv(w: World, s: State, t: State, r: nat)
    requires Inv(w, s) && t == s.(pending := t.pending)
    requires forall x | x in t.pending && x != r :: x in s.pending && t.pending[x] == s.pending[x]
    requires r in t.pending ==> PendingOk(s, t.pending[r])
    ensures Inv(w, t)
  {
    forall h | h in t.db.invitations ensures RowOk(t, h) { assert RowOk(s, h); }
    forall h | h in t.created ensures AccountOk(t, h) { assert AccountOk(s, h); }
    forall h | h in t.issued ensures GoneOk(w, t, h) { assert GoneOk(w, s, h); }
    forall x | x in t.pending ensures PendingOk(t, t.pending[x]) {
      if x != r { assert PendingOk(s, s.pending[x]); }
    }
  }

  lemma {:induction false} RunKeepsInv(w: World, s: State, steps: seq<Step>)
    requires Inv(w, s) && Possible(w, s, steps)
    ensures Inv(w, After(w, s, steps))
    decreases |steps|
  {
    if steps != [] {
      StepKeepsInv(w, s, steps[0]);
      RunKeepsInv(w, Next(w, s, steps[0]), steps[1..]);
    }
  }

  // ----- what every run guarantees -----

  /** However issuing, redeeming, registering and sweeping interleave: every account an invitation made has the
      invited address, no two invitations made the same account, and no address has two accounts. */
  lemma AccountsAreInvited(w: World, steps: seq<Step>)
    requires Possible(w, START, steps)
    ensures var s := After(w, START, steps); UsersOk(s.db) && OneEach(s) && forall h | h in s.created :: AccountOk(s, h)
  {
    RunKeepsInv(w, START, steps);
  }

  /** A redemption that passed its lookup is settled by its transaction alone: it succeeds exactly when the
      invitation has made no account yet, has not been swept, and the address is free. Once an invitation has
      made an account every other redemption of it is refused, and a refusal changes nothing in the store. */
  lemma RedemptionIsSettledOnce(w: World, steps: seq<Step>, r: nat)
    requires Possible(w, START, steps) && r in After(w, START, steps).pending
    ensures var s := After(w, START, steps);
            var p := s.pending[r];
            var (db, u) := TransactResult(s, r);
            && (u.Ok? <==> p.hash !in s.created && p.hash in s.db.invitations && !EmailHasAccount(s.db, p.email))
            && (u.Ok? ==> p.hash in Next(w, s, Transact(r)).created)
            && (p.hash in s.created ==> u == Err(NotInvited))
            && (u.Err? ==> db == s.db)
  {
    RunKeepsInv(w, START, steps);
    var s := After(w, START, steps);
    var p := s.pending[r];
    assert PendingOk(s, p);
    if p.hash in s.db.invitations { assert RowOk(s, p.hash); }
  }

  /** What once made an account stays recorded, so an invitation makes at most one. */
  lemma {:induction false} CreatedIsFinal(w: World, s: State, steps: seq<Step>, h: Hash)
    requires Inv(w, s) && Possible(w, s, steps) && h in s.created
    ensures h in After(w, s, steps).created && After(w, s, steps).created[h] == s.created[h]
    decreases |steps|
  {
    if steps != [] {
      StepKeepsInv(w, s, steps[0]);
      if steps[0].Transact? && TransactResult(s, steps[0].r).1.Ok? {
        assert RowOk(s, s.pending[steps[0].r].hash);
      }
      CreatedIsFinal(w, Next(w, s, steps[0]), steps[1..], h);
    }
  }

  /** The fate of every invitation ever issued: while no sweep ran later than its expiry (its redemption plus
      the TTL, once redeemed) its row is there, unspent or naming the account it made. */
  lemma InvitationsLastLongEnough(w: World, steps: seq<Step>, h: Hash)
    requires Possible(w, START, steps) && h in After(w, START, steps).issued
    ensures var s := After(w, START, steps);
            var until := if h in s.created then s.created[h].at + w.ttl else s.issued[h].expiresAt;
            s.swept.None? || s.swept.value <= until ==>
              h in s.db.invitations
              && (if h in s.created then s.db.invitations[h].userID == Some(s.created[h].user)
                  else s.db.invitations[h].redeemedAt.None?)
  {
    RunKeepsInv(w, START, steps);
    var s := After(w, START, steps);
    assert GoneOk(w, s, h);
    if h in s.db.invitations { assert RowOk(s, h); }
  }
}
