/**
 * Saving a user and the post-save receiver that opens the user's account:
 * a newly created user gets exactly one account, with a zero balance and
 * status "ativo"; later saves of the same user create nothing.
 */
module Signals {
  import opened Wrappers
  import opened Models

  /** The account the receiver opens for the new user `owner`. */
  function OpeningAccount(owner: nat): (a: Account)
    ensures a.owner == owner && a.balance == 0 && IsActive(a)
  {
    Account(owner, 0, Ativo)
  }

  /**
   * Appending a new user together with its opening account keeps one
   * account per user, and the new user owns exactly that new account.
   */
  lemma OpeningKeepsOneAccountEach(users: seq<User>, accounts: seq<Account>, u: User)
    requires OneAccountEach(users, accounts)
    ensures OneAccountEach(users + [u], accounts + [OpeningAccount(|users|)])
    ensures OwnedBy(accounts + [OpeningAccount(|users|)], |users|) == [|users|]
  {
    OneAccountEachOwned(users + [u], accounts + [OpeningAccount(|users|)], |users|);
  }

  /** Rewriting an existing user leaves the accounts as they are, one per user. */
  lemma ResaveKeepsOneAccountEach(users: seq<User>, accounts: seq<Account>, id: nat, u: User)
    requires OneAccountEach(users, accounts) && id < |users|
    ensures OneAccountEach(users[id := u], accounts)
  {
  }

  /** `create_user_account`: on creation only, open the instance's account. */
  method CreateUserAccount(db: Database, instance: nat, created: bool)
    modifies db`accounts
    ensures created ==> db.accounts == old(db.accounts) + [OpeningAccount(instance)]
    ensures !created ==> db.accounts == old(db.accounts)
  {
    if created {
      db.accounts := db.accounts + [OpeningAccount(instance)];
    }
  }

  /**
   * `user.save()` followed by the post-save signal: a user with no key yet
   * is inserted under the next key and gets its account; an existing user
   * is rewritten in place and its accounts stay as they are.
   */
  method SaveUser(db: Database, u: User, existing: Option<nat>) returns (id: nat)
    requires existing.Some? ==> existing.value < |db.users|
    modifies db`users, db`accounts
    ensures existing.None? ==>
      && id == |old(db.users)|
      && db.users == old(db.users) + [u]
      && db.accounts == old(db.accounts) + [OpeningAccount(id)]
    ensures existing.Some? ==>
      && id == existing.value
      && db.users == old(db.users)[id := u]
      && db.accounts == old(db.accounts)
    ensures OneAccountEach(old(db.users), old(db.accounts)) ==> OneAccountEach(db.users, db.accounts)
  {
    if existing.None? {
      id := |db.users|;
      if OneAccountEach(db.users, db.accounts) {
        OpeningKeepsOneAccountEach(db.users, db.accounts, u);
      }
      db.users := db.users + [u];
      CreateUserAccount(db, id, true);
    } else {
      id := existing.value;
      db.users := db.users[id := u];
      CreateUserAccount(db, id, false);
    }
  }
}
