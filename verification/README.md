# conta-digital in Dafny

A model of the logic of conta-digital, a small digital bank with a React client and a Django REST backend, together with proofs about it.

**Client side**
- `formatCPF` masks a Brazilian CPF as `ddd.ddd.ddd-dd`. It is modelled regex step by regex step, and then proved equal to a closed-form mask.
- `validateEmail` is modelled as the match of its pattern. It is proved equivalent to a plain description of the accepted strings.
- The dashboard hook covers:
  - the filtered, newest-first statement;
  - the type badges;
  - the alert texts;
  - the fetch, deposit and transfer handlers, together with their token gate.
- The dashboard page covers:
  - the five-entry summary;
  - the sign and colour rule;
  - the description column;
  - the transfer guard;
  - the filter reset;
  - the admin-only parts.
- The older single-file dashboard page is modelled next to the newer one, and the two are compared.

**Server side**
- The transfer service is a method over an in-memory database whose tables are sequences keyed by position.
- The registration serializer's validators and the fields it writes out.
- The post-save signal that opens an account for each new user.
- The `IsAdminRole` permission.
- The three views: registration, own balance, and the admin account list.

One module ties both sides together. An administrator is always refused by the balance view, so the dashboard's fetch fails: the session is cleared and the page goes back to "/". A dashboard that did load belongs to a customer, so its administrators' section is never drawn.

Modules: `Wrappers`, `Seqs`, `Client` (the data the browser receives), `Formatters`, `DashboardHook`, `DashboardView`, `LegacyDashboard`, `Models`, `Services`, `Serializers`, `Signals`, `Permissions`, `Views`, `AdminAccess`.

Modelling choices:
- Amounts are integer cents.
- An empty amount field is `None`. `Number("")` and `Number(null)` are both 0.
- A JSON text field is absent, `null`, or a string. Truthiness and template interpolation follow JavaScript.
- The HTTP client resolves on a 2xx status and rejects on anything else.
- Transactions carry the `YYYY-MM-DD` key that the client cuts from `created_at`.
- Navigation is a `location` field. `localStorage` is a map. Issued requests and alerts are recorded in sequences.
- A request's outcome is a parameter of the handler that issues it.

Server errors are shown with `alert`. The dashboard clears the session and goes to "/" on any failed fetch, whatever the status.

## Model

| member | source | states |
|---|---|---|
| Formatters.FindRun | frontend/src/utils/utils.js:5-6 | finds the leftmost position where k consecutive digits start, as an unanchored regex without the g flag matches; no earlier position has such a run; None only when there is no run at all |
| Formatters.Digits | frontend/src/utils/utils.js:4 | the stripped string holds only digits and is no longer than the input |
| Formatters.DotStep | frontend/src/utils/utils.js:5-6 | without four consecutive digits the string is unchanged; otherwise it grows by one, with a '.' after the third digit of the leftmost run |
| Formatters.DashStep | frontend/src/utils/utils.js:7 | the string is unchanged, or it grows by one with a '-' one or two digits before its end; a string of four or more digits always gets the '-' |
| Formatters.Take | frontend/src/utils/utils.js:8 | a prefix of the input, of length min(n, length) |
| Formatters.FormatCPF | frontend/src/utils/utils.js:1-9 | "" for the empty value, and never more than 14 characters; its exact value is given by FormatCPFIsMask |
| Formatters.FormatCPFIsMask | frontend/src/utils/utils.js:1-9 | the replace/replace/replace/slice pipeline equals the closed-form mask `ddd.ddd.ddd-dd` over the input's digits, cut to 14 characters, for every input |
| Formatters.FormatCPFNoDigits | frontend/src/utils/utils.js:2-4 | the empty input and every input without a digit give "" |
| Formatters.FormatCPFShape | frontend/src/utils/utils.js:4-8 | the output holds only digits, '.' and '-', and at most 14 characters |
| Formatters.FormatCPFEleven | frontend/src/utils/utils.js:4-7 | eleven digits, with anything interleaved, give exactly `d1d2d3.d4d5d6.d7d8d9-d10d11` |
| Formatters.FormatCPFSeparators | frontend/src/utils/utils.js:5-7 | with n ≤ 11 digits: a '.' at position 3 iff n ≥ 4, a '.' at position 7 iff n ≥ 7, a '-' at position 11 iff n ≥ 10 |
| Formatters.FormatCPFKeepsDigits | frontend/src/utils/utils.js:4-8 | with at most 11 digits, removing the separators from the output gives back exactly the input's digits |
| Formatters.FormatCPFDropsDigits | frontend/src/utils/utils.js:8 | with more than 11 digits, the output's digits are a proper prefix of the input's: the 14-character cut loses digits |
| Formatters.FormatCPFIdempotent | frontend/src/utils/utils.js:1-9 | with at most 11 digits, formatting the output again changes nothing |
| Formatters.ValidateEmail | frontend/src/utils/utils.js:11-14 | an accepted string has at least five characters, an '@' and a '.'; the exact set is given by ValidateEmailShape |
| Formatters.ValidateEmailShape | frontend/src/utils/utils.js:11-14 | the pattern accepts a string iff it has no whitespace, exactly one '@' with a non-empty part before it, and a '.' after the '@' with at least one character on each side |
| Formatters.ValidateEmailExamples | frontend/src/utils/utils.js:12-13 | "a@b.com" is accepted; "" and "not-an-email" are refused |
| Seqs.Reverse | frontend/src/pages/Dashboard/useDashboard.js:19-20 | the reversed copy has the same length and holds element `|s|-1-k` at position k |
| DashboardHook.Keep | frontend/src/pages/Dashboard/useDashboard.js:21-27 | with all three filters empty every transaction passes |
| DashboardHook.ClearingAFilterKeepsMore | frontend/src/pages/Dashboard/useDashboard.js:23-25 | clearing the start, end or type filter never hides a transaction that passed |
| DashboardHook.Select | frontend/src/pages/Dashboard/useDashboard.js:21-27 | the kept transactions form a subsequence of the input; each transaction that passes all three filters occurs in it exactly as often as in the input, and every other one not at all |
| DashboardHook.FilteredTransactions | frontend/src/pages/Dashboard/useDashboard.js:18-27 | the filtered statement is never longer than the statement |
| DashboardHook.FilteredExactly | frontend/src/pages/Dashboard/useDashboard.js:18-27 | the filtered statement is a subsequence of the reversed statement, so newest first and in order, and holds exactly the transactions with start ≤ date, date ≤ end and a matching type, each as often as it occurs in the statement; each test is skipped when its filter is "" |
| DashboardHook.UnfilteredIsReversed | frontend/src/pages/Dashboard/useDashboard.js:18-27 | with all three filters empty, the filtered statement is the whole statement reversed |
| DashboardHook.SingleDayFilter | frontend/src/pages/Dashboard/useDashboard.js:22-24 | both date bounds are inclusive: start = end = a day keeps a transaction iff its date is that day |
| DashboardHook.BadgeStyle | frontend/src/pages/Dashboard/useDashboard.js:94-107 | a badge has a border iff its type is one of the four known ones |
| DashboardHook.BadgeStyleTotal | frontend/src/pages/Dashboard/useDashboard.js:94-107 | the four known types get four distinct badges, none of them the default; every other string gets the default |
| DashboardHook.DepositErrorMessage | frontend/src/pages/Dashboard/useDashboard.js:66-67 | the server's `value` error when present and truthy, else "Erro ao realizar depósito." |
| DashboardHook.TransferErrorMessage | frontend/src/pages/Dashboard/useDashboard.js:87-88 | the first element of `non_field_errors` when it is a list ("undefined" for an empty list), the string itself when it is a non-empty string, else "Erro na transferência." |
| DashboardHook.Exceeds | frontend/src/pages/Dashboard/useDashboard.js:75 | before a balance is loaded, any positive amount exceeds it; an empty amount never exceeds a non-negative balance |
| DashboardHook.HasToken | frontend/src/pages/Dashboard/useDashboard.js:48-49 | a cleared storage holds no token |
| DashboardHook.DashboardState.constructor | frontend/src/pages/Dashboard/useDashboard.js:7-16 | the initial state: no balance, no statement, loading, both modals closed, empty forms and filters |
| DashboardHook.DashboardState.FetchData | frontend/src/pages/Dashboard/useDashboard.js:29-45 | both reads are issued; only when both succeed are balance, user and statement replaced; otherwise storage is cleared and the page goes to "/" with the old data kept; loading ends |
| DashboardHook.DashboardState.Mount | frontend/src/pages/Dashboard/useDashboard.js:47-54 | without a stored token the page goes to "/" and nothing else changes; with one both reads are issued and, when both succeed, balance, user and statement are replaced with storage and location kept, otherwise they are kept and storage is cleared at "/"; loading ends |
| DashboardHook.DashboardState.HandleDeposit | frontend/src/pages/Dashboard/useDashboard.js:56-71 | a successful deposit is announced, clears the field, closes the modal and fetches again, with the refetch's full outcome as in Mount; a failed one shows the server's message and changes nothing else; loading ends |
| DashboardHook.DashboardState.HandleTransfer | frontend/src/pages/Dashboard/useDashboard.js:73-92 | a value above the balance alerts and returns before loading is set or any request is issued, with the form unchanged; otherwise success resets the form to "" and closes the modal and fetches again, with the refetch's full outcome as in Mount; failure shows the server's message and keeps balance, user, statement and session |
| DashboardView.RecentSummary | frontend/src/pages/Dashboard/index.jsx:108 | min(5, n) entries, the last five of the statement, newest first |
| DashboardView.Summary | frontend/src/pages/Dashboard/index.jsx:104-108 | the empty-statement message iff the statement is empty; otherwise the last min(5, n) entries of the statement, newest first |
| DashboardView.Amount | frontend/src/pages/Dashboard/index.jsx:116 | an amount is signed '+' or '-', green exactly when '+' and red otherwise |
| DashboardView.AmountIncomingIff | frontend/src/pages/Dashboard/index.jsx:116 | an amount is drawn '+' and green iff its type is depósito or recebimento; envio and estorno are drawn '-' and red |
| DashboardView.Description | frontend/src/pages/Dashboard/index.jsx:249 | a truthy description wins; else envio gives "Para " followed by the destination name and recebimento gives "De " followed by the origin name, each written as interpolated even when absent; else "-" |
| DashboardView.SubmitDisabled | frontend/src/pages/Dashboard/index.jsx:195 | before the balance loads, any positive amount disables the submit; an enabled submit carries an amount no greater than the balance |
| DashboardView.InsufficientWarning | frontend/src/pages/Dashboard/index.jsx:169 | before the balance loads, the warning shows exactly for a positive amount |
| DashboardView.EnabledSubmitPassesGuard | frontend/src/pages/Dashboard/index.jsx:169-195 | whenever the warning shows the submit is disabled; an enabled submit has a value within the balance, so it passes the hook's guard |
| DashboardView.ClearFilters | frontend/src/pages/Dashboard/index.jsx:231 | "Limpar" sets start, end and type to "" |
| DashboardView.ClearedFiltersShowAll | frontend/src/pages/Dashboard/index.jsx:231 | after "Limpar" the statement modal lists the whole statement, newest first |
| DashboardView.ShowAdminSection | frontend/src/pages/Dashboard/index.jsx:56 | before the profile loads, the admin section is not drawn |
| DashboardView.AdminStatement | frontend/src/pages/Dashboard/index.jsx:336-349 | the admin statement lists every entry newest first, with the reversal button exactly on the envio rows |
| LegacyDashboard.IsPositive | frontend/src/pages/Dashboard.jsx:81 | the older page's sign rule agrees with the newer page's '+' sign |
| LegacyDashboard.RenderDescription | frontend/src/pages/Dashboard.jsx:83-93 | a truthy description whatever the type; else "Para name" for envio with a truthy destination name, "De name" for recebimento with a truthy origin name; in every other case "Movimentação de conta" |
| LegacyDashboard.DescriptionVersions | frontend/src/pages/Dashboard.jsx:83-93 | the two pages agree when the description or the needed name is present; with the destination name absent, the older page writes the generic text and the newer one writes "Para undefined" |
| LegacyDashboard.History | frontend/src/pages/Dashboard.jsx:80-81 | every transaction, unfiltered, newest first, each with its description and its sign |
| LegacyDashboard.HistoryMatchesUnfilteredStatement | frontend/src/pages/Dashboard.jsx:80-81 | the older history and the newer unfiltered statement list the same transactions in the same order, and `isPositive` agrees with the newer '+' sign |
| LegacyDashboard.LegacyPage.constructor | frontend/src/pages/Dashboard.jsx:7-10 | the initial state: no balance, no history, no user, loading |
| LegacyDashboard.LegacyPage.FetchData | frontend/src/pages/Dashboard.jsx:21-37 | on success balance, user and history are replaced; on any failure storage is cleared and the page goes to "/"; loading ends either way |
| LegacyDashboard.LegacyPage.Mount | frontend/src/pages/Dashboard.jsx:12-19 | without a token the page goes to "/" and nothing else changes; with one both reads are issued and, when both succeed, balance, user and history are replaced with storage and location kept, otherwise they are kept and storage is cleared at "/"; loading ends |
| Models.OwnedBy | backend/app/views.py:35 | the keys of exactly the accounts owned by the user, in key order |
| Models.OneAccountEachOwned | backend/app/signals.py:7-12 | when every user has its own account, looking up a user's accounts finds exactly one, the user's own |
| Services.Message | backend/app/services.py:9-26 | only the balance refusal starts with "Saldo insuficiente. Saldo atual: ", and it ends with the origin's current balance |
| Services.TransferCheck | backend/app/services.py:9-26 | the first failing check in the fixed order decides the error: value ≤ 0, then an inactive account, then the same account, then balance < value; None iff 0 < value ≤ balance, both accounts active and the accounts distinct |
| Services.Moved | backend/app/services.py:28-32 | the origin loses the value and the destination gains it; every other account, and every owner and status, is unchanged |
| Services.TransferConservesTotal | backend/app/services.py:28-32 | a transfer leaves the sum of all balances unchanged |
| Services.TransferKeepsNonNegative | backend/app/services.py:25-32 | a transfer that passes the checks leaves no balance negative; moving the whole balance leaves the origin at exactly 0 |
| Services.ExecuteTransfer | backend/app/services.py:7-56 | a refused transfer returns the first failing check and changes no account or record; an accepted one moves the amount, appends exactly an envio on the origin then a recebimento on the destination, each with the same value, description, origin and destination and with its account's new balance, and returns them in that order; the database invariant is kept |
| Serializers.Taken | backend/app/serializers.py:15 | true iff some user has that value in the field |
| Serializers.ValidateEmail | backend/app/serializers.py:14-17 | fails with "E-mail já cadastrado" iff some user has that e-mail, otherwise returns the value unchanged |
| Serializers.ValidateCpf | backend/app/serializers.py:19-22 | fails with "CPF já cadastrado" iff some user has that CPF, otherwise returns the value unchanged |
| Serializers.ValidateRole | backend/app/serializers.py:24-27 | accepts exactly "admin" and "user", unchanged, and fails with "Perfil inválido" otherwise |
| Serializers.RegistrationErrors | backend/app/serializers.py:14-27 | each field's error is reported iff its validator fails, and no other entry ever appears; there are no errors iff CPF and e-mail are both new and the role is valid |
| Serializers.ErrorsInFieldOrder | backend/app/serializers.py:8-27 | each field is reported at most once, and errors follow the order in which the serializer declares its fields (cpf, email, role) |
| Serializers.NewUser | backend/app/serializers.py:29-30 | the stored user carries the sent full name, e-mail, CPF, role and password |
| Serializers.IdIsReadOnly | backend/app/serializers.py:9 | a sent `id` has no effect on the stored user |
| Serializers.SerializeUser | backend/app/serializers.py:8-12 | a user is written out with its key, full name, CPF, e-mail and role, and without a password field |
| Serializers.PasswordNeverSerialized | backend/app/serializers.py:11 | changing a user's password changes neither its written form nor any account written with it nested |
| Serializers.SerializeAccount | backend/app/serializers.py:33-44 | an account is written out with its key, balance and status, and its owner nested as a serialized user |
| Serializers.UpdateAccount | backend/app/serializers.py:45 | writing an account keeps its owner and balance and takes only the sent status |
| Serializers.AccountReadOnlyFields | backend/app/serializers.py:45 | whatever is sent for `id`, `user` or `balance`, the written account is the same |
| Signals.OpeningAccount | backend/app/signals.py:8-12 | the new account belongs to the new user, has balance 0 and status "ativo" |
| Signals.OpeningKeepsOneAccountEach | backend/app/signals.py:7-12 | a new user with its opening account keeps one account per user, and the new user owns exactly the new account |
| Signals.ResaveKeepsOneAccountEach | backend/app/signals.py:7 | re-saving an existing user keeps one account per user |
| Signals.CreateUserAccount | backend/app/signals.py:5-12 | on creation exactly one opening account is appended; on a later save the accounts are unchanged |
| Signals.SaveUser | backend/app/signals.py:5-12 | a new user is appended under the next key and gets its account; an existing user is rewritten in place with no new account; one account per user is kept |
| Permissions.IsAdminRole | backend/app/permissions.py:4-9 | false with no user object, false for an unauthenticated user, and for an authenticated one true iff the role is "admin" |
| Permissions.AdminRoleImpliesAuthenticated | backend/app/permissions.py:5-9 | passing the admin check implies being authenticated |
| Views.CheckPermissions | backend/app/views.py:47 | a request passes iff every listed permission allows it; otherwise it gets 401 without credentials and 403 with them |
| Views.RegistrationOpenToAll | backend/app/views.py:11 | registration allows anyone, authenticated or not |
| Views.RegistrationKeepsIdentitiesUnique | backend/app/views.py:16-17 | a registration that passes validation keeps e-mails and CPFs unique and roles within the two choices |
| Views.RegistrationPost | backend/app/views.py:13-21 | valid data saves the user and its opening account and answers 201 with the serialized user; invalid data answers 400 with the errors and saves nothing; the database invariant is kept |
| Views.BalanceGet | backend/app/views.py:24-43 | 401 without credentials; 403 with "Apenas usuários podem consultar o próprio saldo." for any role but "user"; 404 "Conta não encontrada." iff no account; 500 iff several; with exactly one, 200 with that account; a 200 always carries an account the requester owns |
| Views.CustomerSeesOwnBalance | backend/app/views.py:34-43 | with one account per user, a customer always gets 200 with their own account and its balance |
| Views.CustomerAccounts | backend/app/views.py:50 | the keys of exactly the accounts whose owner has role "user", in key order |
| Views.AdminUsersGet | backend/app/views.py:46-52 | 401 without credentials; 403 for an authenticated non-admin; for an admin, 200 listing every account whose owner has role "user", each once, and no other; no order is promised |
| AdminAccess.BalanceReply | frontend/src/pages/Dashboard/useDashboard.js:35-36 | the client sees the view's status, and on success the account's balance and owner profile |
| AdminAccess.AdminNeverLoadsDashboard | backend/app/views.py:28-32 | an administrator, or any role but "user", gets 403 from the balance view, so the dashboard's fetch fails whatever the statement returns |
| AdminAccess.LoadedDashboardHasNoAdminSection | frontend/src/pages/Dashboard/index.jsx:56 | whenever the dashboard's fetch succeeds against the balance view, the stored profile has role "user", so the admin section is not drawn |
| AdminAccess.AdminVisitsDashboard | frontend/src/pages/Dashboard/useDashboard.js:38-41 | an administrator with a stored token who opens the dashboard ends with storage cleared, at "/", with no statement and not loading |

## Left out

- HTTP calls, navigation, `alert`, `console.error` and `localStorage` are not executed. A request's outcome is a parameter, and the request itself, any alert, the location and the storage are recorded fields.
- `frontend/src/services/api` is not part of this model. The HTTP client is taken to resolve on 2xx and reject otherwise. The token it attaches is not modelled.
- The statement, deposit and transfer endpoints and their URL routes are not part of this model. Their answers are parameters of the client handlers.
- Dates are not parsed. Each transaction carries its `YYYY-MM-DD` key, so time zones and `toISOString` are not modelled.
- JavaScript compares strings by UTF-16 code units; the model compares by code points. The two orders agree on the ASCII date keys.
- Amounts are integer cents:
  - no floating point;
  - no `NaN` from `Number` of a non-numeric string;
  - no `toLocaleString` or `toFixed` formatting.
- Services.DecimalText writes a balance with two decimal places. The Account model is not part of this model.
- Services.ExecuteTransfer models only the sequential effect of `transaction.atomic` and `select_for_update`: all changes or none, with no concurrent transfers. The sorted lock order is not modelled.
- The Account model is not part of this model:
  - `is_active` is taken as status "ativo";
  - `created_at` is left out, since there is no clock;
  - a user with several accounts makes the balance lookup answer 500.
- Serializers.RegistrationErrors does not model the validators DRF generates from the User model:
  - required fields;
  - `max_length` (60 for e-mail and full name, 11 for CPF, 20 for role);
  - the e-mail uniqueness validator;
  - the role choice field.
  
  The last two run before `validate_email` and `validate_role`. A duplicate e-mail or an unknown role is therefore refused with DRF's own text in the 400 body, while the model reports the serializer's text.
- Views.RegistrationPost answers 201 where the source answers 400 on data that only DRF's generated validators refuse, such as a CPF longer than 11 characters (the registration page's CPF field holds the masked value, up to 14 characters) or a missing field; the 400 cases it does model are the three custom validators.
- DashboardHook.DashboardState.HandleDeposit and DashboardHook.DashboardState.HandleTransfer run the refetch to completion before loading ends. The source starts `fetchData` without awaiting it, so `loading` turns false while the refetch is pending and its result lands later. The final state is the same; the intermediate one is not modelled.
- Serializers.NewUser does not model `create_user`'s password hashing or its username handling. The stored user keeps the password as sent.
- Views.CheckPermissions takes an authenticator to be configured. With one configured, an unauthenticated request gets 401 rather than 403. The framework's message texts are not modelled.
- The admin reversal flow is not modelled: `allUsers`, `fetchUserStatement`, `handleReverse` and the related names. The dashboard page destructures them from the hook, but the hook does not provide them, and no reversal service is part of this model. Only the admin statement's order and its envio-only button are modelled.
- The login and registration pages are form plumbing and are not modelled. The seed command is not modelled either, because it depends on a deposit service that is not part of this model.
