/**
 * The registration serializer's own field validators and the shapes in
 * which users and accounts leave the backend.
 */
module Serializers {
  import opened Wrappers
  import opened Models

  const EmailTaken: string := "E-mail j\U{00E1} cadastrado"
  const CpfTaken: string := "CPF j\U{00E1} cadastrado"
  const BadRole: string := "Perfil inv\U{00E1}lido"

  /** The two identity fields the validators look up among existing users. */
  datatype UniqueField = EmailField | CpfField

  function FieldOf(u: User, f: UniqueField): string {
    match f
    case EmailField => u.email
    case CpfField => u.cpf
  }

  /** `User.objects.filter(<field>=value).exists()`. */
  function Taken(users: seq<User>, f: UniqueField, value: string): (t: bool)
    ensures t <==> exists i :: 0 <= i < |users| && FieldOf(users[i], f) == value
  {
    if users == [] then false
    else FieldOf(users[0], f) == value || Taken(users[1..], f, value)
  }

  /** `validate_email`: the value unchanged, or the error when some user already has it. */
  function ValidateEmail(users: seq<User>, value: string): (r: Result<string, string>)
    ensures r.Failure? <==> exists i :: 0 <= i < |users| && users[i].email == value
    ensures r.Success? ==> r.value == value
    ensures r.Failure? ==> r.error == EmailTaken
  {
    assert forall i :: 0 <= i < |users| ==> FieldOf(users[i], EmailField) == users[i].email;
    if Taken(users, EmailField, value) then Failure(EmailTaken) else Success(value)
  }

  /** `validate_cpf`: the value unchanged, or the error when some user already has it. */
  function ValidateCpf(users: seq<User>, value: string): (r: Result<string, string>)
    ensures r.Failure? <==> exists i :: 0 <= i < |users| && users[i].cpf == value
    ensures r.Success? ==> r.value == value
    ensures r.Failure? ==> r.error == CpfTaken
  {
    assert forall i :: 0 <= i < |users| ==> FieldOf(users[i], CpfField) == users[i].cpf;
    if Taken(users, CpfField, value) then Failure(CpfTaken) else Success(value)
  }

  /** `validate_role`: only the two role choices pass, unchanged. */
  function ValidateRole(value: string): (r: Result<string, string>)
    ensures r.Success? <==> value == Admin || value == Customer
    ensures r.Success? ==> r.value == value
    ensures r.Failure? ==> r.error == BadRole
  {
    if value !in [Admin, Customer] then Failure(BadRole) else Success(value)
  }

  /**
   * The body of a registration request. `id` is read-only: whatever the
   * client sends there is ignored.
   */
  datatype RegistrationData = RegistrationData(
    id: Option<nat>,
    fullName: string,
    cpf: string,
    email: string,
    password: string,
    role: string)

  /** The validated fields of a registration, in the order the serializer declares them. */
  datatype FormField = CpfInput | EmailInput | RoleInput

  /** A field's place in the serializer's declaration. */
  function Position(f: FormField): nat {
    match f
    case CpfInput => 0
    case EmailInput => 1
    case RoleInput => 2
  }

  /** One entry of the error body: a field and its message. */
  datatype FieldError = FieldError(field: FormField, message: string)

  function ErrorOf(field: FormField, r: Result<string, string>): (errs: seq<FieldError>)
    ensures errs == [] <==> r.Success?
    ensures forall x :: x in errs <==> r.Failure? && x == FieldError(field, r.error)
    ensures |errs| <= 1
  {
    if r.Failure? then [FieldError(field, r.error)] else []
  }

  /**
   * The errors `is_valid` collects from the three validators, in the order
   * the fields are declared (cpf, e-mail, role); empty when the data is valid.
   */
  function RegistrationErrors(users: seq<User>, data: RegistrationData): (errs: seq<FieldError>)
    ensures FieldError(CpfInput, CpfTaken) in errs <==>
      exists i :: 0 <= i < |users| && users[i].cpf == data.cpf
    ensures FieldError(EmailInput, EmailTaken) in errs <==>
      exists i :: 0 <= i < |users| && users[i].email == data.email
    ensures FieldError(RoleInput, BadRole) in errs <==> data.role != Admin && data.role != Customer
    ensures forall e :: e in errs ==>
      e == FieldError(CpfInput, CpfTaken) || e == FieldError(EmailInput, EmailTaken) || e == FieldError(RoleInput, BadRole)
    ensures errs == [] <==>
      && (forall i :: 0 <= i < |users| ==> users[i].cpf != data.cpf && users[i].email != data.email)
      && (data.role == Admin || data.role == Customer)
  {
    ErrorOf(CpfInput, ValidateCpf(users, data.cpf))
      + ErrorOf(EmailInput, ValidateEmail(users, data.email))
      + ErrorOf(RoleInput, ValidateRole(data.role))
  }

  /** Each field appears at most once among the errors, and always in declaration order. */
  lemma ErrorsInFieldOrder(users: seq<User>, data: RegistrationData)
    ensures var errs := RegistrationErrors(users, data);
      forall k, l :: 0 <= k < l < |errs| ==> Position(errs[k].field) < Position(errs[l].field)
  {
  }

  /** The user `create` stores from validated data; the sent `id` plays no part. */
  function NewUser(data: RegistrationData): (u: User)
    ensures u.email == data.email && u.cpf == data.cpf && u.role == data.role
    ensures u.fullName == data.fullName && u.password == data.password
  {
    User(data.fullName, data.cpf, data.email, data.password, data.role)
  }

  /** `id` is read-only: the stored user does not depend on it. */
  lemma IdIsReadOnly(data: RegistrationData, id: Option<nat>)
    ensures NewUser(data.(id := id)) == NewUser(data)
  {
  }

  /** A user as the API writes it: every field but the write-only password. */
  datatype UserView = UserView(id: nat, fullName: string, cpf: string, email: string, role: string)

  function SerializeUser(users: seq<User>, id: nat): (v: UserView)
    requires id < |users|
    ensures v.id == id && v.fullName == users[id].fullName && v.cpf == users[id].cpf
    ensures v.email == users[id].email && v.role == users[id].role
  {
    var u := users[id];
    UserView(id, u.fullName, u.cpf, u.email, u.role)
  }

  /**
   * The password is write-only: two users that differ only in their
   * password are written out identically, in their own view and nested in
   * an account's.
   */
  lemma PasswordNeverSerialized(users: seq<User>, accounts: seq<Account>, id: nat, password: string)
    requires id < |users|
    ensures SerializeUser(users[id := users[id].(password := password)], id) == SerializeUser(users, id)
    ensures forall k :: 0 <= k < |accounts| && accounts[k].owner < |users| ==>
      SerializeAccount(users[id := users[id].(password := password)], accounts, k)
        == SerializeAccount(users, accounts, k)
  {
  }

  /** An account as the API writes it, with its owner nested. */
  datatype AccountView = AccountView(id: nat, user: UserView, balance: int, status: string)

  function SerializeAccount(users: seq<User>, accounts: seq<Account>, id: nat): (v: AccountView)
    requires id < |accounts| && accounts[id].owner < |users|
    ensures v.id == id && v.balance == accounts[id].balance && v.status == accounts[id].status
    ensures v.user == SerializeUser(users, accounts[id].owner)
  {
    var a := accounts[id];
    AccountView(id, SerializeUser(users, a.owner), a.balance, a.status)
  }

  /** The fields a client may send when writing an account. */
  datatype AccountInput = AccountInput(
    id: Option<nat>,
    user: Option<nat>,
    balance: Option<int>,
    status: Option<string>)

  /**
   * Writing an account through its serializer: `id`, `balance` and the
   * nested `user` are read-only and ignored; only `status` is taken.
   */
  function UpdateAccount(a: Account, input: AccountInput): (r: Account)
    ensures r.owner == a.owner && r.balance == a.balance
    ensures r.status == if input.status.Some? then input.status.value else a.status
  {
    match input.status
    case Some(s) => a.(status := s)
    case None => a
  }

  /** Whatever is sent for the read-only fields, the written account is the same. */
  lemma AccountReadOnlyFields(a: Account, input: AccountInput, id: Option<nat>, user: Option<nat>, balance: Option<int>)
    ensures UpdateAccount(a, input.(id := id, user := user, balance := balance)) == UpdateAccount(a, input)
  {
  }
}
