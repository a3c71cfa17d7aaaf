/**
 * The three API views: registration, the requester's own balance and the
 * administrators' list of customer accounts, each behind its permission
 * classes.
 */
module Views {
  import opened Wrappers
  import opened Models
  import opened Serializers
  import opened Permissions
  import Signals

  const UsersOnly: string := "Apenas usu\U{00E1}rios podem consultar o pr\U{00F3}prio saldo."
  const NoAccount: string := "Conta n\U{00E3}o encontrada."

  /** The permission classes a view may list. */
  datatype Permission = AllowAny | IsAuthenticatedPermission | IsAdminRolePermission

  predicate Allows(users: seq<User>, p: Permission, who: Option<Principal>)
    requires Known(users, who)
  {
    match p
    case AllowAny => true
    case IsAuthenticatedPermission => IsAuthenticated(who)
    case IsAdminRolePermission => IsAdminRole(users, who)
  }

  /** What a view answers with. */
  datatype Body =
    | NotAuthenticated
    | PermissionDenied
    | Detail(text: string)
    | Created(user: UserView)
    | Invalid(errors: seq<FieldError>)
    | AccountBody(account: AccountView)
    | AccountList(accounts: seq<AccountView>)
    | ServerError

  datatype Response = Response(status: nat, body: Body)

  const RegistrationPermissions: seq<Permission> := [AllowAny]
  const BalancePermissions: seq<Permission> := [IsAuthenticatedPermission]
  const AdminUsersPermissions: seq<Permission> := [IsAuthenticatedPermission, IsAdminRolePermission]

  /**
   * The permission check run before a handler: the request goes through
   * when every listed class allows it; otherwise it is refused with 401 when
   * no credentials were accepted and with 403 when they were.
   */
  function CheckPermissions(users: seq<User>, perms: seq<Permission>, who: Option<Principal>): (r: Option<Response>)
    requires Known(users, who)
    ensures r.None? <==> forall k :: 0 <= k < |perms| ==> Allows(users, perms[k], who)
    ensures r.Some? ==>
      r.value == if IsAuthenticated(who) then Response(403, PermissionDenied) else Response(401, NotAuthenticated)
  {
    if perms == [] then None
    else if !Allows(users, perms[0], who) then
      Some(if IsAuthenticated(who) then Response(403, PermissionDenied) else Response(401, NotAuthenticated))
    else CheckPermissions(users, perms[1..], who)
  }

  /** Registration is open to anyone, authenticated or not. */
  lemma RegistrationOpenToAll(users: seq<User>, who: Option<Principal>)
    requires Known(users, who)
    ensures CheckPermissions(users, RegistrationPermissions, who).None?
  {
  }

  /** A registration that passes the validators keeps e-mails and CPFs unique and roles valid. */
  lemma RegistrationKeepsIdentitiesUnique(users: seq<User>, data: RegistrationData)
    requires UniqueIdentities(users)
    requires RegistrationErrors(users, data) == []
    ensures UniqueIdentities(users + [NewUser(data)])
  {
    var u := NewUser(data);
    var after := users + [u];
    assert forall i :: 0 <= i < |users| ==> users[i].cpf != u.cpf && users[i].email != u.email;
    assert u.role == Admin || u.role == Customer;
    forall i, j | 0 <= i < j < |after|
      ensures after[i].email != after[j].email && after[i].cpf != after[j].cpf
    {
      assert after[i] == users[i];
      if j == |users| {
        assert after[j] == u;
      } else {
        assert after[j] == users[j];
      }
    }
    forall i | 0 <= i < |after|
      ensures after[i].role == Admin || after[i].role == Customer
    {
      if i < |users| {
        assert after[i] == users[i];
      }
    }
  }

  /**
   * `UserRegistrationView.post`: valid data is saved, the new user's account
   * is opened, and the answer is 201 with the user as written out; invalid
   * data is answered with 400 and the errors, and nothing is saved.
   */
  method RegistrationPost(db: Database, data: RegistrationData) returns (resp: Response)
    modifies db`users, db`accounts
    ensures var errs := RegistrationErrors(old(db.users), data);
      && (errs != [] ==>
            resp == Response(400, Invalid(errs)) && db.users == old(db.users) && db.accounts == old(db.accounts))
      && (errs == [] ==>
            && db.users == old(db.users) + [NewUser(data)]
            && db.accounts == old(db.accounts) + [Signals.OpeningAccount(|old(db.users)|)]
            && resp == Response(201, Created(SerializeUser(db.users, |old(db.users)|))))
    ensures old(db.Valid()) ==> db.Valid()
  {
    var errs := RegistrationErrors(db.users, data);
    if errs != [] {
      return Response(400, Invalid(errs));
    }
    if db.Valid() {
      RegistrationKeepsIdentitiesUnique(db.users, data);
    }
    var id := Signals.SaveUser(db, NewUser(data), None);
    resp := Response(201, Created(SerializeUser(db.users, id)));
  }

  /**
   * `BalanceAPIView.get`: 401 without credentials, 403 for any role but
   * "user", 404 when the requester owns no account, 500 when the lookup of
   * a single account finds several, else 200 with the requester's account.
   */
  function BalanceGet(users: seq<User>, accounts: seq<Account>, who: Option<Principal>): (r: Response)
    requires Known(users, who) && OwnersExist(users, accounts)
    ensures r.status == 200 || r.status >= 400
    ensures !IsAuthenticated(who) ==> r == Response(401, NotAuthenticated)
    ensures IsAuthenticated(who) && users[who.value.id].role != Customer ==> r == Response(403, Detail(UsersOnly))
    ensures IsAuthenticated(who) && users[who.value.id].role == Customer ==>
      && (OwnedBy(accounts, who.value.id) == [] <==> r == Response(404, Detail(NoAccount)))
      && (|OwnedBy(accounts, who.value.id)| > 1 <==> r == Response(500, ServerError))
    ensures IsAuthenticated(who) && users[who.value.id].role == Customer && |OwnedBy(accounts, who.value.id)| == 1 ==>
      r == Response(200, AccountBody(SerializeAccount(users, accounts, OwnedBy(accounts, who.value.id)[0])))
    ensures r.status == 200 ==>
      && IsAuthenticated(who) && users[who.value.id].role == Customer && r.body.AccountBody?
      && r.body.account.user.id == who.value.id
      && exists i :: 0 <= i < |accounts| && accounts[i].owner == who.value.id
                     && r.body.account == SerializeAccount(users, accounts, i)
  {
    match CheckPermissions(users, BalancePermissions, who)
    case Some(denied) => denied
    case None =>
      var id := who.value.id;
      if users[id].role != Customer then Response(403, Detail(UsersOnly))
      else
        var owned := OwnedBy(accounts, id);
        if owned == [] then Response(404, Detail(NoAccount))
        else if |owned| > 1 then Response(500, ServerError)
        else Response(200, AccountBody(SerializeAccount(users, accounts, owned[0])))
  }

  /**
   * With one account per user, a customer always gets 200 and exactly the
   * account at their own key, with its balance.
   */
  lemma CustomerSeesOwnBalance(users: seq<User>, accounts: seq<Account>, id: nat)
    requires OneAccountEach(users, accounts)
    requires id < |users| && users[id].role == Customer
    ensures OwnersExist(users, accounts)
    ensures BalanceGet(users, accounts, Some(Member(id))) == Response(200, AccountBody(SerializeAccount(users, accounts, id)))
    ensures BalanceGet(users, accounts, Some(Member(id))).body.account.balance == accounts[id].balance
  {
    OneAccountEachOwned(users, accounts, id);
  }

  /** The keys of the accounts whose owner has role "user", in key order. */
  function CustomerAccounts(users: seq<User>, accounts: seq<Account>): (ids: seq<nat>)
    requires OwnersExist(users, accounts)
    ensures forall k :: 0 <= k < |ids| ==> ids[k] < |accounts| && users[accounts[ids[k]].owner].role == Customer
    ensures forall i :: 0 <= i < |accounts| && users[accounts[i].owner].role == Customer ==> i in ids
    ensures forall k, l :: 0 <= k < l < |ids| ==> ids[k] < ids[l]
  {
    if accounts == [] then []
    else
      var n := |accounts| - 1;
      var init := CustomerAccounts(users, accounts[..n]);
      if users[accounts[n].owner].role == Customer then init + [n] else init
  }

  /**
   * `AdminUsersAPIView.get`: 401 without credentials, 403 for an
   * authenticated non-admin, else 200 with exactly the accounts whose owner
   * has role "user".
   */
  function AdminUsersGet(users: seq<User>, accounts: seq<Account>, who: Option<Principal>): (r: Response)
    requires Known(users, who) && OwnersExist(users, accounts)
    ensures !IsAuthenticated(who) ==> r == Response(401, NotAuthenticated)
    ensures IsAuthenticated(who) && users[who.value.id].role != Admin ==> r == Response(403, PermissionDenied)
    ensures IsAdminRole(users, who) ==>
      && r.status == 200 && r.body.AccountList?
      && (forall v :: v in r.body.accounts ==> v.user.role == Customer)
      && (forall v :: v in r.body.accounts ==>
            exists i :: 0 <= i < |accounts| && v == SerializeAccount(users, accounts, i))
      && (forall i :: 0 <= i < |accounts| && users[accounts[i].owner].role == Customer ==>
            SerializeAccount(users, accounts, i) in r.body.accounts)
      && (forall k, l :: 0 <= k < l < |r.body.accounts| ==> r.body.accounts[k].id != r.body.accounts[l].id)
  {
    match CheckPermissions(users, AdminUsersPermissions, who)
    case Some(denied) => denied
    case None =>
      assert Allows(users, AdminUsersPermissions[1], who);
      var ids := CustomerAccounts(users, accounts);
      var views := AccountViews(users, accounts, ids);
      AccountViewsDistinct(users, accounts, ids);
      assert forall i :: 0 <= i < |accounts| && users[accounts[i].owner].role == Customer ==>
        exists k :: 0 <= k < |ids| && ids[k] == i && views[k] == SerializeAccount(users, accounts, i);
      Response(200, AccountList(views))
  }

  /** The serialized accounts at the keys `ids`, in that order. */
  function AccountViews(users: seq<User>, accounts: seq<Account>, ids: seq<nat>): (vs: seq<AccountView>)
    requires forall k :: 0 <= k < |ids| ==> ids[k] < |accounts| && accounts[ids[k]].owner < |users|
    ensures |vs| == |ids|
    ensures forall k :: 0 <= k < |ids| ==> vs[k] == SerializeAccount(users, accounts, ids[k])
  {
    seq(|ids|, k requires 0 <= k < |ids| => SerializeAccount(users, accounts, ids[k]))
  }

  /** Distinct keys give views with distinct ids. */
  lemma AccountViewsDistinct(users: seq<User>, accounts: seq<Account>, ids: seq<nat>)
    requires forall k :: 0 <= k < |ids| ==> ids[k] < |accounts| && accounts[ids[k]].owner < |users|
    requires forall k, l :: 0 <= k < l < |ids| ==> ids[k] < ids[l]
    ensures var vs := AccountViews(users, accounts, ids);
      forall k, l :: 0 <= k < l < |vs| ==> vs[k].id != vs[l].id
  {
  }
}
