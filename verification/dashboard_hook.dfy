/**
 * The dashboard hook of the client: the state it holds, the filtered
 * statement it derives from that state, and the handlers that fetch the
 * account, deposit and transfer.
 *
 * HTTP calls, `alert`, navigation and `localStorage` are the environment:
 * a call is recorded in `requests`, its outcome is a parameter of the
 * handler, an alert is recorded in `alerts`, navigation sets `location`
 * and the storage is a map of keys to strings.
 */
module DashboardHook {
  import opened Wrappers
  import opened Client
  import Seqs

  // ---------------------------------------------------------------------
  // The filtered statement

  /** The statement filters; the empty string means "no filter". */
  datatype Filters = Filters(startDate: string, endDate: string, kind: string)

  const NoFilters: Filters := Filters("", "", "")

  /** JavaScript `a < b` on strings: lexicographic, a proper prefix comes first. */
  predicate StrLess(a: string, b: string)
    decreases |a|
  {
    if b == [] then false
    else if a == [] then true
    else if a[0] != b[0] then a[0] < b[0]
    else StrLess(a[1..], b[1..])
  }

  /** JavaScript `a <= b` on strings. */
  predicate StrLessEq(a: string, b: string) {
    !StrLess(b, a)
  }

  /** The predicate passed to `filter`: both date bounds inclusive, then the type. */
  predicate Keep(f: Filters, t: Transaction)
    ensures f == NoFilters ==> Keep(f, t)
  {
    && (f.startDate == "" || StrLessEq(f.startDate, t.date))
    && (f.endDate == "" || StrLessEq(t.date, f.endDate))
    && (f.kind == "" || t.kind == f.kind)
  }

  /** Clearing any one of the filters never hides a transaction that was shown. */
  lemma ClearingAFilterKeepsMore(f: Filters, t: Transaction)
    ensures Keep(f, t) ==>
      Keep(f.(startDate := ""), t) && Keep(f.(endDate := ""), t) && Keep(f.(kind := ""), t)
  {
  }

  /**
   * `filter(keep)`: the kept transactions, in their order, each passing one
   * as many times as it occurs and every other one not at all.
   */
  function Select(ts: seq<Transaction>, f: Filters): (r: seq<Transaction>)
    ensures Seqs.IsSubsequence(r, ts)
    ensures forall t :: t in r <==> t in ts && Keep(f, t)
    ensures forall t :: multiset(r)[t] == if Keep(f, t) then multiset(ts)[t] else 0
    ensures |r| <= |ts|
  {
    if ts == [] then []
    else
      assert ts == [ts[0]] + ts[1..];
      if Keep(f, ts[0]) then [ts[0]] + Select(ts[1..], f)
      else Select(ts[1..], f)
  }

  /** `filteredTransactions`: a reversed copy of the statement, filtered. */
  function FilteredTransactions(ts: seq<Transaction>, f: Filters): (r: seq<Transaction>)
    ensures |r| <= |ts|
  {
    Select(Seqs.Reverse(ts), f)
  }

  /**
   * The filtered statement keeps the newest-first order of the reversed
   * statement and holds exactly the transactions that pass all three filters.
   */
  lemma FilteredExactly(ts: seq<Transaction>, f: Filters)
    ensures Seqs.IsSubsequence(FilteredTransactions(ts, f), Seqs.Reverse(ts))
    ensures forall t :: t in FilteredTransactions(ts, f) <==> t in ts && Keep(f, t)
    ensures forall t :: multiset(FilteredTransactions(ts, f))[t] == if Keep(f, t) then multiset(ts)[t] else 0
  {
    Seqs.ReverseMembers(ts);
    Seqs.ReverseMultiset(ts);
  }

  lemma {:induction false} SelectAll(ts: seq<Transaction>)
    ensures Select(ts, NoFilters) == ts
  {
    if ts != [] {
      SelectAll(ts[1..]);
    }
  }

  /** With the three filters empty, the whole statement is shown, newest first. */
  lemma UnfilteredIsReversed(ts: seq<Transaction>)
    ensures FilteredTransactions(ts, NoFilters) == Seqs.Reverse(ts)
  {
    SelectAll(Seqs.Reverse(ts));
  }

  lemma {:induction false} StrLessIrreflexive(a: string)
    ensures !StrLess(a, a)
  {
    if a != [] {
      StrLessIrreflexive(a[1..]);
    }
  }

  lemma {:induction false} StrLessTotal(a: string, b: string)
    requires !StrLess(a, b) && !StrLess(b, a)
    ensures a == b
    decreases |a|
  {
    if a != [] && b != [] {
      StrLessTotal(a[1..], b[1..]);
      assert a == [a[0]] + a[1..] && b == [b[0]] + b[1..];
    }
  }

  /**
   * Both date bounds are inclusive: with start and end set to the same
   * non-empty day, exactly that day's transactions are kept.
   */
  lemma SingleDayFilter(t: Transaction, day: string)
    requires day != ""
    ensures Keep(Filters(day, day, ""), t) <==> t.date == day
  {
    if t.date == day {
      StrLessIrreflexive(day);
    }
    if Keep(Filters(day, day, ""), t) {
      StrLessTotal(day, t.date);
    }
  }

  // ---------------------------------------------------------------------
  // Badges

  /** The inline style of a type badge; the default one has no border. */
  datatype Badge = Badge(background: string, color: string, border: Option<string>)

  const DefaultBadge: Badge := Badge("#f3f4f6", "#1f2937", None)

  /** `getBadgeStyle(type)`. */
  function BadgeStyle(kind: string): (b: Badge)
    ensures b.border.None? <==> !IsKnownKind(kind)
  {
    if kind == Deposito then Badge("#ecfdf5", "#059669", Some("1px solid #d1fae5"))
    else if kind == Recebimento then Badge("#eff6ff", "#2563eb", Some("1px solid #dbeafe"))
    else if kind == Envio then Badge("#fef2f2", "#dc2626", Some("1px solid #fee2e2"))
    else if kind == Estorno then Badge("#f8fafc", "#64748b", Some("1px solid #e2e8f0"))
    else DefaultBadge
  }

  predicate IsKnownKind(kind: string) {
    kind == Deposito || kind == Recebimento || kind == Envio || kind == Estorno
  }

  /**
   * Two different known types never share a badge, a known type never gets
   * the default one, and every other string does.
   */
  lemma BadgeStyleTotal(a: string, b: string)
    ensures IsKnownKind(a) && IsKnownKind(b) && a != b ==> BadgeStyle(a) != BadgeStyle(b)
    ensures IsKnownKind(a) <==> BadgeStyle(a) != DefaultBadge
  {
  }

  // ---------------------------------------------------------------------
  // Messages

  /** JavaScript truthiness of an error field: an array is always truthy. */
  predicate FieldTruthy(e: ErrorField) {
    e.Messages? || e.text != ""
  }

  /** `Array.prototype.toString`: the items joined by commas. */
  function JoinComma(items: seq<string>): string {
    if items == [] then ""
    else if |items| == 1 then items[0]
    else items[0] + "," + JoinComma(items[1..])
  }

  /** What `alert(x)` shows for an error field. */
  function Shown(e: ErrorField): string {
    match e
    case Message(s) => s
    case Messages(items) => JoinComma(items)
  }

  const DepositFallback: string := "Erro ao realizar dep\U{00F3}sito."
  const TransferFallback: string := "Erro na transfer\U{00EA}ncia."
  const DepositDone: string := "Dep\U{00F3}sito realizado com sucesso!"
  const TransferDone: string := "Transfer\U{00EA}ncia realizada com sucesso!"
  const InsufficientAlert: string := "Saldo insuficiente para realizar esta transfer\U{00EA}ncia."

  /** The alert of a failed deposit: the server's `value` error when it is truthy. */
  function DepositErrorMessage(reply: Reply<ErrorBody>): (m: string)
    ensures (reply.Reply? && "value" in reply.data && FieldTruthy(reply.data["value"]))
      ==> m == Shown(reply.data["value"])
    ensures (reply.NetworkError? || "value" !in reply.data || !FieldTruthy(reply.data["value"]))
      ==> m == DepositFallback
  {
    if reply.Reply? && "value" in reply.data && FieldTruthy(reply.data["value"])
    then Shown(reply.data["value"])
    else DepositFallback
  }

  /**
   * The alert of a failed transfer: the first of the server's
   * `non_field_errors` when it is a list (`undefined` when the list is
   * empty), the value itself when it is a non-empty string, the fallback
   * otherwise.
   */
  function TransferErrorMessage(reply: Reply<ErrorBody>): (m: string)
    ensures reply.Reply? && "non_field_errors" in reply.data ==>
      match reply.data["non_field_errors"]
      case Messages(items) => m == if items == [] then "undefined" else items[0]
      case Message(s) => m == if s == "" then TransferFallback else s
    ensures reply.NetworkError? || "non_field_errors" !in reply.data ==> m == TransferFallback
  {
    if reply.Reply? && "non_field_errors" in reply.data && FieldTruthy(reply.data["non_field_errors"]) then
      match reply.data["non_field_errors"]
      case Messages(items) => if items == [] then "undefined" else items[0]
      case Message(s) => s
    else TransferFallback
  }

  // ---------------------------------------------------------------------
  // Amounts typed into the forms

  /** `Number(x)` of a typed amount or of the held balance: empty and `null` give 0. */
  function NumberOf(x: Option<int>): int {
    if x.Some? then x.value else 0
  }

  /** `Number(transferData.value) > Number(balance)`. */
  predicate Exceeds(value: Option<int>, balance: Option<int>)
    ensures balance.None? ==> (Exceeds(value, balance) <==> value.Some? && value.value > 0)
    ensures value.None? && balance.Some? && balance.value >= 0 ==> !Exceeds(value, balance)
  {
    NumberOf(value) > NumberOf(balance)
  }

  /** The transfer form; an empty amount field is `None`. */
  datatype TransferForm = TransferForm(identifier: string, value: Option<int>, description: string)

  const EmptyTransfer: TransferForm := TransferForm("", None, "")

  /** The negation of `!localStorage.getItem("access")`; a cleared storage holds no token. */
  predicate HasToken(storage: map<string, string>)
    ensures !HasToken(map[])
  {
    "access" in storage && storage["access"] != ""
  }

  /** `Promise.all` of the two fetches resolves only when both succeed. */
  predicate FetchSucceeds(b: Reply<BalanceData>, s: Reply<seq<Transaction>>) {
    Succeeded(b) && Succeeded(s)
  }

  // ---------------------------------------------------------------------
  // The hook's state

  class DashboardState {
    var balance: Option<int>
    var transactions: seq<Transaction>
    var loading: bool
    var user: Option<Profile>
    var isModalOpen: bool
    var depositValue: Option<int>
    var isTransferModalOpen: bool
    var transferData: TransferForm
    var isStatementModalOpen: bool
    var filters: Filters
    // the browser around the hook
    var storage: map<string, string>
    var location: string
    var requests: seq<ApiCall>
    var alerts: seq<string>

    /** The initial `useState` values, in a browser whose storage is `storage`. */
    constructor (storage: map<string, string>, location: string)
      ensures this.storage == storage && this.location == location
      ensures balance == None && transactions == [] && loading && user == None
      ensures !isModalOpen && depositValue == None && !isTransferModalOpen
      ensures transferData == EmptyTransfer && !isStatementModalOpen && filters == NoFilters
      ensures requests == [] && alerts == []
    {
      this.storage := storage;
      this.location := location;
      balance := None;
      transactions := [];
      loading := true;
      user := None;
      isModalOpen := false;
      depositValue := None;
      isTransferModalOpen := false;
      transferData := EmptyTransfer;
      isStatementModalOpen := false;
      filters := NoFilters;
      requests := [];
      alerts := [];
    }

    /**
     * The state `fetchData` leaves behind, given the state before it: when
     * both reads succeed, balance, user and statement are replaced and the
     * session is kept; otherwise they are kept, the storage is cleared and
     * the page is at "/".
     */
    predicate Refreshed(b: Reply<BalanceData>, s: Reply<seq<Transaction>>,
                        balance0: Option<int>, user0: Option<Profile>, transactions0: seq<Transaction>,
                        storage0: map<string, string>, location0: string)
      reads this
    {
      if FetchSucceeds(b, s) then
        && balance == Some(b.data.balance) && user == Some(b.data.user)
        && transactions == s.data
        && storage == storage0 && location == location0
      else
        && balance == balance0 && user == user0
        && transactions == transactions0
        && storage == map[] && location == "/"
    }

    /**
     * `fetchData`: the two reads are issued together; only when both succeed
     * are balance, user and statement replaced, otherwise the storage is
     * cleared and the page goes to "/". Loading ends either way.
     */
    method FetchData(b: Reply<BalanceData>, s: Reply<seq<Transaction>>)
      modifies this`balance, this`user, this`transactions, this`storage,
               this`location, this`loading, this`requests
      ensures requests == old(requests) + [GetBalance, GetStatement]
      ensures Refreshed(b, s, old(balance), old(user), old(transactions), old(storage), old(location))
      ensures !loading
    {
      requests := requests + [GetBalance, GetStatement];
      if FetchSucceeds(b, s) {
        balance := Some(b.data.balance);
        user := Some(b.data.user);
        transactions := s.data;
      } else {
        storage := map[];
        location := "/";
      }
      loading := false;
    }

    /** The mount effect: without a token go to "/" and fetch nothing. */
    method Mount(b: Reply<BalanceData>, s: Reply<seq<Transaction>>)
      modifies this`balance, this`user, this`transactions, this`storage,
               this`location, this`loading, this`requests
      ensures !HasToken(old(storage)) ==>
        && location == "/" && requests == old(requests) && loading == old(loading)
        && balance == old(balance) && user == old(user)
        && transactions == old(transactions) && storage == old(storage)
      ensures HasToken(old(storage)) ==>
        && requests == old(requests) + [GetBalance, GetStatement] && !loading
        && Refreshed(b, s, old(balance), old(user), old(transactions), old(storage), old(location))
    {
      if !HasToken(storage) {
        location := "/";
        return;
      }
      FetchData(b, s);
    }

    /**
     * `handleDeposit`: post the typed value; on success announce it, clear
     * the field, close the modal and fetch again; on failure show the
     * server's message. Loading ends either way.
     */
    method HandleDeposit(reply: Reply<ErrorBody>, b: Reply<BalanceData>, s: Reply<seq<Transaction>>)
      modifies this`balance, this`user, this`transactions, this`storage, this`location,
               this`loading, this`requests, this`alerts, this`depositValue, this`isModalOpen
      ensures !loading
      ensures Succeeded(reply) ==>
        && requests == old(requests) + [PostDeposit(old(depositValue)), GetBalance, GetStatement]
        && alerts == old(alerts) + [DepositDone]
        && depositValue == None && !isModalOpen
        && Refreshed(b, s, old(balance), old(user), old(transactions), old(storage), old(location))
      ensures !Succeeded(reply) ==>
        && requests == old(requests) + [PostDeposit(old(depositValue))]
        && alerts == old(alerts) + [DepositErrorMessage(reply)]
        && depositValue == old(depositValue) && isModalOpen == old(isModalOpen)
        && balance == old(balance) && user == old(user) && transactions == old(transactions)
        && storage == old(storage) && location == old(location)
    {
      loading := true;
      requests := requests + [PostDeposit(depositValue)];
      if Succeeded(reply) {
        alerts := alerts + [DepositDone];
        depositValue := None;
        isModalOpen := false;
        FetchData(b, s);
      } else {
        alerts := alerts + [DepositErrorMessage(reply)];
      }
      loading := false;
    }

    /**
     * `handleTransfer`: when the typed value exceeds the held balance, alert
     * and stop before anything else; otherwise post the form, and on success
     * close the modal, reset the form and fetch again, on failure show the
     * server's message. Loading ends either way.
     */
    method HandleTransfer(reply: Reply<ErrorBody>, b: Reply<BalanceData>, s: Reply<seq<Transaction>>)
      modifies this`balance, this`user, this`transactions, this`storage, this`location,
               this`loading, this`requests, this`alerts, this`transferData, this`isTransferModalOpen
      ensures Exceeds(old(transferData).value, old(balance)) ==>
        && alerts == old(alerts) + [InsufficientAlert]
        && requests == old(requests) && loading == old(loading)
        && transferData == old(transferData) && isTransferModalOpen == old(isTransferModalOpen)
        && balance == old(balance) && user == old(user) && transactions == old(transactions)
        && storage == old(storage) && location == old(location)
      ensures !Exceeds(old(transferData).value, old(balance)) ==> !loading
      ensures !Exceeds(old(transferData).value, old(balance)) && Succeeded(reply) ==>
        && requests == old(requests) + [PostTransfer(old(transferData).identifier, old(transferData).value,
                                                    old(transferData).description), GetBalance, GetStatement]
        && alerts == old(alerts) + [TransferDone]
        && transferData == EmptyTransfer && !isTransferModalOpen
        && Refreshed(b, s, old(balance), old(user), old(transactions), old(storage), old(location))
      ensures !Exceeds(old(transferData).value, old(balance)) && !Succeeded(reply) ==>
        && requests == old(requests) + [PostTransfer(old(transferData).identifier, old(transferData).value,
                                                    old(transferData).description)]
        && alerts == old(alerts) + [TransferErrorMessage(reply)]
        && transferData == old(transferData) && isTransferModalOpen == old(isTransferModalOpen)
        && balance == old(balance) && user == old(user) && transactions == old(transactions)
        && storage == old(storage) && location == old(location)
    {
      if Exceeds(transferData.value, balance) {
        alerts := alerts + [InsufficientAlert];
        return;
      }
      loading := true;
      requests := requests + [PostTransfer(transferData.identifier, transferData.value, transferData.description)];
      if Succeeded(reply) {
        alerts := alerts + [TransferDone];
        isTransferModalOpen := false;
        transferData := EmptyTransfer;
        FetchData(b, s);
      } else {
        alerts := alerts + [TransferErrorMessage(reply)];
      }
      loading := false;
    }
  }
}
