/**
 * The data the browser client receives from the banking API and keeps in
 * its view state, as JavaScript sees it after JSON decoding.
 */
module Client {
  import opened Wrappers

  /** A JSON text field: absent (`undefined`), `null`, or a string. */
  datatype JsText = Missing | Null | Text(s: string)

  /** JavaScript truthiness of such a field: only a non-empty string is truthy. */
  predicate Truthy(v: JsText) {
    v.Text? && v.s != ""
  }

  /** What a template literal `${v}` writes for `v`. */
  function Interpolate(v: JsText): string {
    match v
    case Missing => "undefined"
    case Null => "null"
    case Text(s) => s
  }

  /** The four transaction types the server sends. */
  const Deposito: string := "dep\U{00F3}sito"
  const Envio: string := "envio"
  const Recebimento: string := "recebimento"
  const Estorno: string := "estorno"

  /**
   * One entry of the statement. Amounts are in cents; `date` is the
   * `YYYY-MM-DD` key the client cuts from the UTC ISO form of `created_at`.
   */
  datatype Transaction = Transaction(
    id: int,
    kind: string,
    value: int,
    balanceAfter: int,
    date: string,
    description: JsText,
    destinationName: JsText,
    originName: JsText)

  /** The `user` object of the balance response. */
  datatype Profile = Profile(fullName: string, email: string, role: string)

  /** The body of a successful balance response. */
  datatype BalanceData = BalanceData(balance: int, user: Profile)

  /**
   * How an HTTP call ends: no response at all, or a response with a status.
   * The HTTP client resolves on a 2xx status and rejects on anything else.
   */
  datatype Reply<T> = NetworkError | Reply(status: int, data: T)

  predicate Succeeded<T>(r: Reply<T>) {
    r.Reply? && 200 <= r.status < 300
  }

  /** A server-side validation message: one string or a list of them. */
  datatype ErrorField = Message(text: string) | Messages(items: seq<string>)

  /** The body of a rejected POST: its error fields by name. */
  type ErrorBody = map<string, ErrorField>

  /** The requests the client issues, in the order it issues them. */
  datatype ApiCall =
    | GetBalance
    | GetStatement
    | PostDeposit(value: Option<int>)
    | PostTransfer(identifier: string, value: Option<int>, description: string)
}
