/**
 * The balance view and the dashboard together. The dashboard loads only
 * when the balance request succeeds, and the balance view answers 403 to
 * every role but "user": an administrator who opens the dashboard is
 * signed out and sent back to "/", and a dashboard that did load belongs
 * to a customer, so its administrators' section is never drawn.
 */
module AdminAccess {
  import opened Wrappers
  import opened Models
  import opened Serializers
  import opened Permissions
  import Views
  import Client
  import DashboardHook
  import DashboardView

  function ToProfile(v: UserView): Client.Profile {
    Client.Profile(v.fullName, v.email, v.role)
  }

  /**
   * The balance answer as the browser receives it. A refused answer carries
   * no balance data; the client never reads it, since the request rejects.
   */
  function BalanceReply(r: Views.Response): (c: Client.Reply<Client.BalanceData>)
    ensures c.Reply? && c.status == r.status
    ensures r.body.AccountBody? ==>
      c.data == Client.BalanceData(r.body.account.balance, ToProfile(r.body.account.user))
  {
    var data :=
      if r.body.AccountBody? then Client.BalanceData(r.body.account.balance, ToProfile(r.body.account.user))
      else Client.BalanceData(0, Client.Profile("", "", ""));
    Client.Reply(r.status, data)
  }

  /**
   * An authenticated administrator, or any role but "user", is refused by
   * the balance view, so the dashboard's fetch fails whatever the statement
   * request returns.
   */
  lemma AdminNeverLoadsDashboard(users: seq<User>, accounts: seq<Account>, id: nat, s: Client.Reply<seq<Client.Transaction>>)
    requires OwnersExist(users, accounts)
    requires id < |users| && users[id].role != Customer
    ensures Views.BalanceGet(users, accounts, Some(Member(id))).status == 403
    ensures !DashboardHook.FetchSucceeds(BalanceReply(Views.BalanceGet(users, accounts, Some(Member(id)))), s)
  {
  }

  /**
   * Whenever the dashboard's fetch succeeds against the balance view, the
   * profile it stores has role "user", so the administrators' section is
   * not drawn.
   */
  lemma LoadedDashboardHasNoAdminSection(
    users: seq<User>, accounts: seq<Account>, who: Option<Principal>, s: Client.Reply<seq<Client.Transaction>>)
    requires Known(users, who) && OwnersExist(users, accounts)
    requires DashboardHook.FetchSucceeds(BalanceReply(Views.BalanceGet(users, accounts, who)), s)
    ensures BalanceReply(Views.BalanceGet(users, accounts, who)).data.user.role == Customer
    ensures !DashboardView.ShowAdminSection(Some(BalanceReply(Views.BalanceGet(users, accounts, who)).data.user))
  {
    var r := Views.BalanceGet(users, accounts, who);
    assert r.status == 200;
  }

  /**
   * An administrator with a stored token opens the dashboard: the page
   * issues both requests, the balance one is refused, and the page ends
   * with its storage cleared, at "/", with no statement and not loading.
   */
  method AdminVisitsDashboard(
    users: seq<User>, accounts: seq<Account>, id: nat, token: string, s: Client.Reply<seq<Client.Transaction>>)
    returns (page: DashboardHook.DashboardState)
    requires OwnersExist(users, accounts)
    requires id < |users| && users[id].role == Admin
    requires token != ""
    ensures page.storage == map[] && page.location == "/"
    ensures page.transactions == [] && !page.loading
    ensures page.requests == [Client.GetBalance, Client.GetStatement]
  {
    page := new DashboardHook.DashboardState(map["access" := token], "/dashboard");
    var b := BalanceReply(Views.BalanceGet(users, accounts, Some(Member(id))));
    AdminNeverLoadsDashboard(users, accounts, id, s);
    page.Mount(b, s);
  }
}
