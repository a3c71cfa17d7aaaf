/**
 * The backend's tables. Each table is a sequence whose positions are the
 * rows' primary keys; an account refers to its owner by the owner's key.
 * Amounts are integer cents.
 */
module Models {
  import opened Wrappers

  const Admin: string := "admin"
  const Customer: string := "user"
  const Ativo: string := "ativo"

  /** A registered user: the fields the registration form sends. */
  datatype User = User(fullName: string, cpf: string, email: string, password: string, role: string)

  /** A bank account of the user whose key is `owner`. */
  datatype Account = Account(owner: nat, balance: int, status: string)

  /** The four statement entry types. */
  datatype TxKind = Deposito | Envio | Recebimento | Estorno

  /** One statement entry, booked on `account`. */
  datatype Record = Record(
    account: nat,
    origin: nat,
    destination: nat,
    value: int,
    balanceAfter: int,
    kind: TxKind,
    description: string,
    related: Option<nat>)

  /** An account takes part in transfers only while its status is "ativo". */
  predicate IsActive(a: Account) {
    a.status == Ativo
  }

  /**
   * The keys of the accounts owned by user `u`, in key order: what a query
   * `Account.objects.filter(user=u)` finds.
   */
  function OwnedBy(accounts: seq<Account>, u: nat): (ids: seq<nat>)
    ensures forall k :: 0 <= k < |ids| ==> ids[k] < |accounts| && accounts[ids[k]].owner == u
    ensures forall i :: 0 <= i < |accounts| && accounts[i].owner == u ==> i in ids
    ensures forall k, l :: 0 <= k < l < |ids| ==> ids[k] < ids[l]
  {
    if accounts == [] then []
    else
      var n := |accounts| - 1;
      var init := OwnedBy(accounts[..n], u);
      if accounts[n].owner == u then init + [n] else init
  }

  /** Every user owns exactly the account at its own key, and nothing else exists. */
  predicate OneAccountEach(users: seq<User>, accounts: seq<Account>) {
    |accounts| == |users| && forall i :: 0 <= i < |accounts| ==> accounts[i].owner == i
  }

  /** Every account's owner is a user. */
  predicate OwnersExist(users: seq<User>, accounts: seq<Account>) {
    forall i :: 0 <= i < |accounts| ==> accounts[i].owner < |users|
  }

  predicate NonNegative(accounts: seq<Account>) {
    forall i :: 0 <= i < |accounts| ==> accounts[i].balance >= 0
  }

  /** No two users share an e-mail or a CPF, and every role is one of the two choices. */
  predicate UniqueIdentities(users: seq<User>) {
    && (forall i, j :: 0 <= i < j < |users| ==> users[i].email != users[j].email && users[i].cpf != users[j].cpf)
    && (forall i :: 0 <= i < |users| ==> users[i].role == Admin || users[i].role == Customer)
  }

  /**
   * Under the one-account-per-user invariant, the query for a user's
   * accounts finds exactly the account at that user's key.
   */
  lemma OneAccountEachOwned(users: seq<User>, accounts: seq<Account>, u: nat)
    requires OneAccountEach(users, accounts)
    requires u < |users|
    ensures OwnedBy(accounts, u) == [u]
    ensures OwnersExist(users, accounts)
  {
    OwnedPrefix(accounts, u, |accounts|);
    assert accounts[..|accounts|] == accounts;
  }

  lemma {:induction false} OwnedPrefix(accounts: seq<Account>, u: nat, k: nat)
    requires k <= |accounts|
    requires forall i :: 0 <= i < |accounts| ==> accounts[i].owner == i
    ensures OwnedBy(accounts[..k], u) == if u < k then [u] else []
  {
    if k > 0 {
      OwnedPrefix(accounts, u, k - 1);
      assert accounts[..k][..k - 1] == accounts[..k - 1];
    }
  }

  /** The sum of all balances. */
  function Total(accounts: seq<Account>): int {
    if accounts == [] then 0 else accounts[0].balance + Total(accounts[1..])
  }

  /** Replacing one account changes the total by the difference of the two balances. */
  lemma {:induction false} TotalUpdate(accounts: seq<Account>, i: nat, a: Account)
    requires i < |accounts|
    ensures Total(accounts[i := a]) == Total(accounts) - accounts[i].balance + a.balance
  {
    if i > 0 {
      TotalUpdate(accounts[1..], i - 1, a);
      assert accounts[i := a][1..] == accounts[1..][i - 1 := a];
    }
  }

  /** The database: the three tables the backend writes. */
  class Database {
    var users: seq<User>
    var accounts: seq<Account>
    var records: seq<Record>

    constructor ()
      ensures users == [] && accounts == [] && records == []
    {
      users := [];
      accounts := [];
      records := [];
    }

    /** What the backend keeps true of its tables. */
    predicate Valid()
      reads this
    {
      OneAccountEach(users, accounts) && NonNegative(accounts) && UniqueIdentities(users)
    }
  }
}
