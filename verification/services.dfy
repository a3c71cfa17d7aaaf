/**
 * The transfer service: check a transfer between two accounts in a fixed
 * order, then debit the origin, credit the destination and book one
 * statement entry on each side. Either every change happens or none does.
 */
module Services {
  import opened Wrappers
  import opened Models

  /** Why a transfer is refused, in the order the checks run. */
  datatype TransferError = NonPositive | Inactive | SameAccount | Insufficient(current: int)

  const InsufficientPrefix: string := "Saldo insuficiente. Saldo atual: "

  function DigitChar(d: nat): char
    requires d < 10
  {
    (48 + d) as char
  }

  function NatText(n: nat): string
    decreases n
  {
    if n < 10 then [DigitChar(n)] else NatText(n / 10) + [DigitChar(n % 10)]
  }

  /** A balance of `cents` written as a two-place decimal, as the database returns it. */
  function DecimalText(cents: int): string {
    var m: nat := if cents < 0 then -cents else cents;
    (if cents < 0 then "-" else "") + NatText(m / 100) + "." + [DigitChar(m % 100 / 10), DigitChar(m % 10)]
  }

  /**
   * The text of the validation error raised for each refusal. Only the
   * balance refusal starts with the insufficient-balance prefix, and it
   * carries the origin's current balance.
   */
  function Message(e: TransferError): (m: string)
    ensures e.Insufficient? <==> InsufficientPrefix <= m
    ensures e.Insufficient? ==> m[|InsufficientPrefix|..] == DecimalText(e.current)
  {
    match e
    case NonPositive =>
      var m := "O valor da transfer\U{00EA}ncia deve ser positivo.";
      assert m[0] != InsufficientPrefix[0];
      m
    case Inactive =>
      var m := "Ambas as contas precisam estar ativas.";
      assert m[0] != InsufficientPrefix[0];
      m
    case SameAccount =>
      var m := "N" + "\U{00E3}o \U{00E9} poss\U{00ED}vel transferir para a mesma conta.";
      assert m[0] != InsufficientPrefix[0];
      m
    case Insufficient(current) => InsufficientPrefix + DecimalText(current)
  }

  /**
   * The first check a transfer of `value` from `origin` to `destination`
   * fails, or None when it passes them all: positivity, then both accounts
   * active, then distinct accounts, then enough balance.
   */
  function TransferCheck(accounts: seq<Account>, origin: nat, destination: nat, value: int): (r: Option<TransferError>)
    requires origin < |accounts| && destination < |accounts|
    ensures r == Some(NonPositive) <==> value <= 0
    ensures r == Some(Inactive) <==>
      value > 0 && (!IsActive(accounts[origin]) || !IsActive(accounts[destination]))
    ensures r == Some(SameAccount) <==>
      value > 0 && IsActive(accounts[origin]) && IsActive(accounts[destination]) && origin == destination
    ensures (r.Some? && r.value.Insufficient?) <==>
      && value > 0 && IsActive(accounts[origin]) && IsActive(accounts[destination])
      && origin != destination && accounts[origin].balance < value
    ensures (r.Some? && r.value.Insufficient?) ==> r.value.current == accounts[origin].balance
    ensures r.None? <==>
      && 0 < value <= accounts[origin].balance
      && IsActive(accounts[origin]) && IsActive(accounts[destination])
      && origin != destination
  {
    if value <= 0 then Some(NonPositive)
    else if !IsActive(accounts[origin]) || !IsActive(accounts[destination]) then Some(Inactive)
    else if origin == destination then Some(SameAccount)
    else if accounts[origin].balance < value then Some(Insufficient(accounts[origin].balance))
    else None
  }

  /** The accounts after `value` moves from `origin` to `destination`. */
  function Moved(accounts: seq<Account>, origin: nat, destination: nat, value: int): (r: seq<Account>)
    requires origin < |accounts| && destination < |accounts| && origin != destination
    ensures |r| == |accounts|
    ensures r[origin].balance == accounts[origin].balance - value
    ensures r[destination].balance == accounts[destination].balance + value
    ensures forall i :: 0 <= i < |r| ==> r[i].owner == accounts[i].owner && r[i].status == accounts[i].status
    ensures forall i :: 0 <= i < |r| && i != origin && i != destination ==> r[i] == accounts[i]
  {
    var debited := accounts[origin := accounts[origin].(balance := accounts[origin].balance - value)];
    debited[destination := debited[destination].(balance := debited[destination].balance + value)]
  }

  /** A transfer neither creates nor destroys money: the sum of all balances is unchanged. */
  lemma TransferConservesTotal(accounts: seq<Account>, origin: nat, destination: nat, value: int)
    requires origin < |accounts| && destination < |accounts| && origin != destination
    ensures Total(Moved(accounts, origin, destination, value)) == Total(accounts)
  {
    var debit := accounts[origin].(balance := accounts[origin].balance - value);
    var debited := accounts[origin := debit];
    var credit := accounts[destination].(balance := accounts[destination].balance + value);
    TotalUpdate(accounts, origin, debit);
    TotalUpdate(debited, destination, credit);
    MovedIsTwoUpdates(accounts, origin, destination, value);
  }

  lemma MovedIsTwoUpdates(accounts: seq<Account>, origin: nat, destination: nat, value: int)
    requires origin < |accounts| && destination < |accounts| && origin != destination
    ensures Moved(accounts, origin, destination, value)
         == accounts[origin := accounts[origin].(balance := accounts[origin].balance - value)]
                    [destination := accounts[destination].(balance := accounts[destination].balance + value)]
  {
  }

  /**
   * A transfer that passes every check leaves no balance negative; moving
   * the whole balance leaves the origin at exactly zero.
   */
  lemma TransferKeepsNonNegative(accounts: seq<Account>, origin: nat, destination: nat, value: int)
    requires origin < |accounts| && destination < |accounts|
    requires NonNegative(accounts)
    requires TransferCheck(accounts, origin, destination, value).None?
    ensures NonNegative(Moved(accounts, origin, destination, value))
    ensures value == accounts[origin].balance ==> Moved(accounts, origin, destination, value)[origin].balance == 0
  {
    var r := Moved(accounts, origin, destination, value);
    forall i | 0 <= i < |r|
      ensures r[i].balance >= 0
    {
      if i != origin && i != destination {
        assert r[i] == accounts[i];
      }
    }
  }

  /**
   * `TransferService.execute_transfer`: refuse with the first failing check
   * and change nothing, or move the amount and book an "envio" entry on the
   * origin and a "recebimento" entry on the destination, each with the
   * balance its account has afterwards, returned in that order.
   */
  method ExecuteTransfer(db: Database, origin: nat, destination: nat, value: int, description: string)
    returns (r: Result<(Record, Record), TransferError>)
    requires origin < |db.accounts| && destination < |db.accounts|
    modifies db`accounts, db`records
    ensures var check := TransferCheck(old(db.accounts), origin, destination, value);
      && (check.Some? ==>
            r == Failure(check.value) && db.accounts == old(db.accounts) && db.records == old(db.records))
      && (check.None? ==>
            && db.accounts == Moved(old(db.accounts), origin, destination, value)
            && r == Success((
                 Record(origin, origin, destination, value, db.accounts[origin].balance, Envio, description, None),
                 Record(destination, origin, destination, value, db.accounts[destination].balance, Recebimento, description, None)))
            && db.records == old(db.records) + [r.value.0, r.value.1])
    ensures old(db.Valid()) ==> db.Valid()
  {
    if value <= 0 {
      return Failure(NonPositive);
    }
    if !IsActive(db.accounts[origin]) || !IsActive(db.accounts[destination]) {
      return Failure(Inactive);
    }
    if origin == destination {
      return Failure(SameAccount);
    }
    var from := db.accounts[origin];
    var to := db.accounts[destination];
    if from.balance < value {
      return Failure(Insufficient(from.balance));
    }
    if db.Valid() {
      TransferKeepsNonNegative(db.accounts, origin, destination, value);
    }
    from := from.(balance := from.balance - value);
    to := to.(balance := to.balance + value);
    db.accounts := db.accounts[origin := from];
    db.accounts := db.accounts[destination := to];

    var envio := Record(origin, origin, destination, value, from.balance, Envio, description, None);
    var recebimento := Record(destination, origin, destination, value, to.balance, Recebimento, description, None);
    db.records := db.records + [envio, recebimento];
    r := Success((envio, recebimento));
  }
}
