/** The invitation store as the object it is (internal/database/invitations.go). */
module InvitationTables {
  import opened Text
  import opened Spec = Invitations

  /** The store as the tables it updates. Redeem inserts the account and then marks the invitation, on the
      condition that it is still unspent. */
  class Database {
    var invitations: map<Hash, Invitation>
    var users: map<nat, User>
    var lastUser: nat

    ghost function Contents(): Db
      reads this
    {
      Db(invitations, users, lastUser)
    }

    constructor ()
      ensures Contents() == Db(map[], map[], 0)
    {
      invitations, users, lastUser := map[], map[], 0;
    }

    method CreateInvitation(hash: Hash, invitation: Invitation) returns (r: Result<()>)
      modifies this
      ensures (Contents(), r) == Spec.CreateInvitation(old(Contents()), hash, invitation)
    {
      if hash in invitations {
        return Err(Storage);
      }
      invitations := invitations[hash := invitation];
      return Ok(());
    }

    method InsertUser(email: string, passwordHash: string) returns (r: Result<User>)
      modifies this`users, this`lastUser
      ensures (Contents(), r) == CreateUser(old(Contents()), email, passwordHash)
    {
      if exists id :: id in users && users[id].email == email {
        return Err(EmailTaken);
      }
      lastUser := lastUser + 1;
      var user := User(lastUser, email, passwordHash);
      users := users[lastUser := user];
      return Ok(user);
    }

    /** UPDATE ... WHERE redeemed_at IS NULL, reporting the rows it changed. */
    method MarkRedeemed(hash: Hash, at: int, userID: nat) returns (changed: nat)
      modifies this`invitations
      ensures if hash in old(invitations) && old(invitations)[hash].redeemedAt.None?
              then changed == 1 && invitations ==
                old(invitations)[hash := old(invitations)[hash].(redeemedAt := Some(at), userID := Some(userID))]
              else changed == 0 && invitations == old(invitations)
    {
      changed := 0;
      if hash in invitations && invitations[hash].redeemedAt.None? {
        invitations := invitations[hash := invitations[hash].(redeemedAt := Some(at), userID := Some(userID))];
        changed := 1;
      }
    }

    method Redeem(hash: Hash, at: int, email: string, passwordHash: string) returns (r: Result<User>)
      modifies this
      ensures (Contents(), r) == Spec.Redeem(old(Contents()), hash, at, email, passwordHash)
    {
      if hash !in invitations {
        return Err(NotInvited);
      }
      var stored := invitations[hash];
      if stored.redeemedAt.Some? || !(at < stored.expiresAt) || stored.email != email {
        return Err(NotInvited);
      }
      r := InsertUser(email, passwordHash);
      if r.Err? {
        return;
      }
      var changed := MarkRedeemed(hash, at, r.value.id);
      // The row was read unspent in this transaction, so the branch that undoes the insert is never taken.
      assert changed == 1;
    }

    method DeleteSpentInvitations(expiredBefore: int, redeemedBefore: int) returns (removed: nat)
      modifies this`invitations
      ensures Contents() == DeleteSpent(old(Contents()), expiredBefore, redeemedBefore)
      ensures removed == |set h | h in old(invitations) && Spent(old(invitations)[h], expiredBefore, redeemedBefore)|
    {
      var gone := set h | h in invitations && Spent(invitations[h], expiredBefore, redeemedBefore);
      invitations := invitations - gone;
      removed := |gone|;
    }
  }
}
