/**
 * What the dashboard page renders from the hook's state: the summary of the
 * latest transactions, the sign and colour of an amount, the statement's
 * description column, the transfer form's guard, the filter reset and the
 * admin-only parts.
 */
module DashboardView {
  import opened Wrappers
  import opened Client
  import Seqs
  import DashboardHook

  // ---------------------------------------------------------------------
  // Summary of the latest transactions

  function Min(a: int, b: int): int {
    if a <= b then a else b
  }

  /** `transactions.slice(-5).reverse()`. */
  function RecentSummary(ts: seq<Transaction>): (r: seq<Transaction>)
    ensures |r| == Min(5, |ts|)
    ensures forall k :: 0 <= k < |r| ==> r[k] == ts[|ts| - 1 - k]
  {
    var last := ts[|ts| - Min(5, |ts|)..];
    assert forall j :: 0 <= j < |last| ==> last[j] == ts[|ts| - |last| + j];
    Seqs.Reverse(last)
  }

  /** The summary card: a message for an empty statement, else the entries. */
  datatype SummaryCard = NoActivity | Entries(rows: seq<Transaction>)

  function Summary(ts: seq<Transaction>): (c: SummaryCard)
    ensures c.NoActivity? <==> ts == []
    ensures c.Entries? ==> 0 < |c.rows| <= 5 && c.rows[0] == ts[|ts| - 1]
    ensures c.Entries? ==>
      |c.rows| == Min(5, |ts|) && forall k :: 0 <= k < |c.rows| ==> c.rows[k] == ts[|ts| - 1 - k]
  {
    if |ts| == 0 then NoActivity else Entries(RecentSummary(ts))
  }

  // ---------------------------------------------------------------------
  // Amounts

  const Green: string := "#10b981"
  const Red: string := "#ef4444"

  /** The sign and colour an amount is drawn with, in the summary and the statement. */
  datatype AmountStyle = AmountStyle(sign: char, color: string)

  function Amount(t: Transaction): (a: AmountStyle)
    ensures a.sign == '+' || a.sign == '-'
    ensures a.color == if a.sign == '+' then Green else Red
  {
    if t.kind == Deposito || t.kind == Recebimento then AmountStyle('+', Green)
    else AmountStyle('-', Red)
  }

  /**
   * An amount is drawn as incoming ('+', green) iff its type is a deposit or
   * a receipt; sends and reversals are drawn as outgoing ('-', red).
   */
  lemma AmountIncomingIff(t: Transaction)
    ensures Amount(t).sign == '+' <==> t.kind == Deposito || t.kind == Recebimento
    ensures Amount(t).color == Green <==> Amount(t).sign == '+'
    ensures t.kind == Envio || t.kind == Estorno ==> Amount(t) == AmountStyle('-', Red)
  {
  }

  // ---------------------------------------------------------------------
  // The statement's description column

  /**
   * A truthy description, else "Para <destination>" for a send and
   * "De <origin>" for a receipt, the name written whatever it is, else "-".
   */
  function Description(t: Transaction): (d: string)
    ensures Truthy(t.description) ==> d == t.description.s
    ensures !Truthy(t.description) && t.kind == Envio ==> d == "Para " + Interpolate(t.destinationName)
    ensures !Truthy(t.description) && t.kind == Recebimento ==> d == "De " + Interpolate(t.originName)
    ensures !Truthy(t.description) && t.kind != Envio && t.kind != Recebimento ==> d == "-"
  {
    if Truthy(t.description) then t.description.s
    else if t.kind == Envio then "Para " + Interpolate(t.destinationName)
    else if t.kind == Recebimento then "De " + Interpolate(t.originName)
    else "-"
  }

  // ---------------------------------------------------------------------
  // The transfer form

  /** The submit button is disabled while loading, above the balance, or with no amount. */
  predicate SubmitDisabled(loading: bool, form: DashboardHook.TransferForm, balance: Option<int>)
    ensures balance.None? && form.value.Some? && form.value.value > 0 ==> SubmitDisabled(loading, form, balance)
    ensures !SubmitDisabled(loading, form, balance) ==> form.value.Some? && form.value.value <= DashboardHook.NumberOf(balance)
  {
    loading || DashboardHook.Exceeds(form.value, balance) || form.value.None?
  }

  /** The inline "Saldo insuficiente" warning. */
  predicate InsufficientWarning(form: DashboardHook.TransferForm, balance: Option<int>)
    ensures balance.None? ==> (InsufficientWarning(form, balance) <==> form.value.Some? && form.value.value > 0)
  {
    DashboardHook.Exceeds(form.value, balance)
  }

  /**
   * An enabled submit carries an amount within the balance, so the hook's
   * own guard lets it through; whenever the warning is shown, the submit is
   * disabled.
   */
  lemma EnabledSubmitPassesGuard(loading: bool, form: DashboardHook.TransferForm, balance: Option<int>)
    ensures !SubmitDisabled(loading, form, balance) ==>
      !loading && form.value.Some? && !DashboardHook.Exceeds(form.value, balance)
    ensures InsufficientWarning(form, balance) ==> SubmitDisabled(loading, form, balance)
  {
  }

  // ---------------------------------------------------------------------
  // Filters

  /** The "Limpar" button. */
  function ClearFilters(f: DashboardHook.Filters): (g: DashboardHook.Filters)
    ensures g.startDate == "" && g.endDate == "" && g.kind == ""
  {
    DashboardHook.Filters("", "", "")
  }

  /** After "Limpar" the statement modal lists the whole statement, newest first. */
  lemma ClearedFiltersShowAll(ts: seq<Transaction>, f: DashboardHook.Filters)
    ensures DashboardHook.FilteredTransactions(ts, ClearFilters(f)) == Seqs.Reverse(ts)
  {
    DashboardHook.UnfilteredIsReversed(ts);
  }

  // ---------------------------------------------------------------------
  // The admin parts

  /** `user?.role === 'admin'`: the management section is rendered. */
  predicate ShowAdminSection(user: Option<Profile>)
    ensures user.None? ==> !ShowAdminSection(user)
  {
    user.Some? && user.value.role == "admin"
  }

  /** One row of an account's statement in the admin modal. */
  datatype AdminRow = AdminRow(tx: Transaction, canReverse: bool)

  /**
   * `adminTargetStatement.slice(0).reverse()`, newest first, with the
   * reversal button on send rows only.
   */
  function AdminStatement(stmt: seq<Transaction>): (rows: seq<AdminRow>)
    ensures |rows| == |stmt|
    ensures forall k :: 0 <= k < |rows| ==> rows[k].tx == stmt[|stmt| - 1 - k]
    ensures forall k :: 0 <= k < |rows| ==> (rows[k].canReverse <==> rows[k].tx.kind == Envio)
  {
    var rev := Seqs.Reverse(stmt);
    seq(|rev|, k requires 0 <= k < |rev| => AdminRow(rev[k], rev[k].kind == Envio))
  }
}
