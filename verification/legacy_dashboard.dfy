/**
 * The older, single-file dashboard page: it fetches the account behind the
 * same token gate and lists the whole history, newest first, with its own
 * sign rule and description fallback.
 */
module LegacyDashboard {
  import opened Wrappers
  import opened Client
  import Seqs
  import DashboardHook
  import DashboardView

  /** `isPositive`. */
  predicate IsPositive(t: Transaction)
    ensures IsPositive(t) <==> DashboardView.Amount(t).sign == '+'
  {
    t.kind == Deposito || t.kind == Recebimento
  }

  const Generic: string := "Movimenta\U{00E7}\U{00E3}o de conta"

  /**
   * `renderDescription`: a truthy description whatever the type, else
   * "Para <name>" for a send whose destination name is truthy, else
   * "De <name>" for a receipt whose origin name is truthy, else the generic
   * text.
   */
  function RenderDescription(t: Transaction): (d: string)
    ensures Truthy(t.description) ==> d == t.description.s
    ensures (!Truthy(t.description) && t.kind == Envio && Truthy(t.destinationName))
      ==> d == "Para " + t.destinationName.s
    ensures (!Truthy(t.description) && t.kind == Recebimento && Truthy(t.originName))
      ==> d == "De " + t.originName.s
    ensures (&& !Truthy(t.description)
             && !(t.kind == Envio && Truthy(t.destinationName))
             && !(t.kind == Recebimento && Truthy(t.originName)))
      ==> d == Generic
  {
    if Truthy(t.description) then t.description.s
    else if t.kind == Envio && Truthy(t.destinationName) then "Para " + t.destinationName.s
    else if t.kind == Recebimento && Truthy(t.originName) then "De " + t.originName.s
    else Generic
  }

  /**
   * The two dashboards agree on the description whenever the needed name is
   * present, and disagree when it is missing: the newer page writes
   * "Para undefined" where the older one writes the generic text.
   */
  lemma DescriptionVersions(t: Transaction)
    ensures Truthy(t.description) ==> RenderDescription(t) == DashboardView.Description(t)
    ensures t.kind == Envio && Truthy(t.destinationName) ==> RenderDescription(t) == DashboardView.Description(t)
    ensures t.kind == Recebimento && Truthy(t.originName) ==> RenderDescription(t) == DashboardView.Description(t)
    ensures !Truthy(t.description) && t.kind == Envio && t.destinationName == Missing ==>
      RenderDescription(t) == Generic && DashboardView.Description(t) == "Para undefined"
  {
  }

  /** One entry of the history list. */
  datatype HistoryRow = HistoryRow(tx: Transaction, description: string, positive: bool)

  function Row(t: Transaction): HistoryRow {
    HistoryRow(t, RenderDescription(t), IsPositive(t))
  }

  /** `transactions.slice(0).reverse().map(...)`: every transaction, unfiltered, newest first. */
  function History(ts: seq<Transaction>): (rows: seq<HistoryRow>)
    ensures |rows| == |ts|
    ensures forall k :: 0 <= k < |rows| ==> rows[k] == Row(ts[|ts| - 1 - k])
  {
    var rev := Seqs.Reverse(ts);
    seq(|rev|, k requires 0 <= k < |rev| => Row(rev[k]))
  }

  /**
   * The older page's history and the newer page's unfiltered statement list
   * the same transactions in the same order, with the same sign.
   */
  lemma HistoryMatchesUnfilteredStatement(ts: seq<Transaction>)
    ensures var rows, shown := History(ts), DashboardHook.FilteredTransactions(ts, DashboardHook.NoFilters);
      |rows| == |shown| &&
      forall k :: 0 <= k < |rows| ==>
        rows[k].tx == shown[k] && (rows[k].positive <==> DashboardView.Amount(shown[k]).sign == '+')
  {
    DashboardHook.UnfilteredIsReversed(ts);
  }

  /** The older page's state. */
  class LegacyPage {
    var balance: Option<int>
    var transactions: seq<Transaction>
    var loading: bool
    var user: Option<Profile>
    var storage: map<string, string>
    var location: string
    var requests: seq<ApiCall>

    constructor (storage: map<string, string>, location: string)
      ensures this.storage == storage && this.location == location
      ensures balance == None && transactions == [] && loading && user == None && requests == []
    {
      this.storage := storage;
      this.location := location;
      balance := None;
      transactions := [];
      loading := true;
      user := None;
      requests := [];
    }

    /**
     * `fetchData`: both reads together; on success replace balance, user and
     * history, on any failure clear the storage and go to "/"; loading ends
     * either way.
     */
    method FetchData(b: Reply<BalanceData>, s: Reply<seq<Transaction>>)
      modifies this`balance, this`user, this`transactions, this`storage,
               this`location, this`loading, this`requests
      ensures requests == old(requests) + [GetBalance, GetStatement]
      ensures DashboardHook.FetchSucceeds(b, s) ==>
        && balance == Some(b.data.balance) && user == Some(b.data.user)
        && transactions == s.data
        && storage == old(storage) && location == old(location)
      ensures !DashboardHook.FetchSucceeds(b, s) ==>
        && balance == old(balance) && user == old(user)
        && transactions == old(transactions)
        && storage == map[] && location == "/"
      ensures !loading
    {
      requests := requests + [GetBalance, GetStatement];
      if DashboardHook.FetchSucceeds(b, s) {
        balance := Some(b.data.balance);
        user := Some(b.data.user);
        transactions := s.data;
      } else {
        storage := map[];
        location := "/";
      }
      loading := false;
    }

    /** The mount effect: without a token go to "/" and issue no request. */
    method Mount(b: Reply<BalanceData>, s: Reply<seq<Transaction>>)
      modifies this`balance, this`user, this`transactions, this`storage,
               this`location, this`loading, this`requests
      ensures !DashboardHook.HasToken(old(storage)) ==>
        && location == "/" && requests == old(requests) && loading == old(loading)
        && balance == old(balance) && user == old(user)
        && transactions == old(transactions) && storage == old(storage)
      ensures DashboardHook.HasToken(old(storage)) ==>
        && requests == old(requests) + [GetBalance, GetStatement] && !loading
        && (DashboardHook.FetchSucceeds(b, s) ==>
              && balance == Some(b.data.balance) && user == Some(b.data.user) && transactions == s.data
              && storage == old(storage) && location == old(location))
        && (!DashboardHook.FetchSucceeds(b, s) ==>
              && balance == old(balance) && user == old(user) && transactions == old(transactions)
              && storage == map[] && location == "/")
    {
      if !DashboardHook.HasToken(storage) {
        location := "/";
        return;
      }
      FetchData(b, s);
    }
  }
}
