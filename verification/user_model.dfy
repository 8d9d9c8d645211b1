/**
 The user record, its password-free public view, the in-memory store that
 stands for the user table, the request bodies the controller reads, and
 the outcome each handler ends in.
 */
module UserModel {

  datatype Option<+T> = None | Some(value: T)

  /** A request-body field counts as given when it is present and not the
      empty string: the controller tests fields for JavaScript truthiness
      (`if (name)`, `!email`), so an empty string behaves like a missing
      field. */
  predicate Supplied(f: Option<string>) {
    f.Some? && f.value != ""
  }

  /** A stored account. `updatedBy` is the id of the user who last changed
      the record through the update handler; it is empty until then. */
  datatype User = User(
    id: int,
    name: string,
    email: string,
    cpf: string,
    password: string,
    updatedBy: Option<int>)

  /** What leaves the service: a user without the password field. */
  datatype UserView = UserView(
    id: int,
    name: string,
    email: string,
    cpf: string,
    updatedBy: Option<int>)

  /** Drops the password of a record. */
  function ToView(u: User): UserView
  {
    UserView(u.id, u.name, u.email, u.cpf, u.updatedBy)
  }

  /** The user table, keyed by primary key. */
  type Store = map<int, User>

  /** Each record sits under its own id. */
  ghost predicate KeysMatchIds(store: Store) {
    forall k :: k in store ==> store[k].id == k
  }

  /** No two records share an email, and no two share a CPF. */
  ghost predicate Unique(store: Store) {
    forall a, b :: a in store && b in store && a != b ==>
      store[a].email != store[b].email && store[a].cpf != store[b].cpf
  }

  /** The invariant of the user table. */
  ghost predicate Valid(store: Store) {
    KeysMatchIds(store) && Unique(store)
  }

  /** Some record already holds this email or this CPF: the lookup
      `findOne` with `Op.or` over the two columns finds a row. */
  predicate Registered(store: Store, email: string, cpf: string) {
    exists k :: k in store && (store[k].email == email || store[k].cpf == cpf)
  }

  /** Two stores that differ at most in the stored passwords. */
  ghost predicate SamePublicData(s1: Store, s2: Store) {
    s1.Keys == s2.Keys && forall k :: k in s1 ==> ToView(s1[k]) == ToView(s2[k])
  }

  /** The body of a create request. */
  datatype CreateBody = CreateBody(
    name: Option<string>,
    email: Option<string>,
    cpf: Option<string>,
    password: Option<string>)

  /** The body of an update request. */
  datatype UpdateBody = UpdateBody(
    name: Option<string>,
    password: Option<string>,
    email: Option<string>)

  /** The terminal outcome of a handler, in place of an HTTP status and
      JSON body: `Ok` is 200, `Created` 201, `NoContent` 204, `BadRequest`
      400 with its error message, `Forbidden` 403 and `NotFound` 404. */
  datatype Outcome =
    | Ok(view: UserView)
    | Created(view: UserView)
    | NoContent
    | BadRequest(msg: string)
    | Forbidden
    | NotFound

  /** The outcome of a handler that may write, and the store it leaves. */
  datatype Reply = Reply(outcome: Outcome, store: Store)

  const AllFieldsRequired := "All fields are required"
  const InvalidCpf := "Invalid CPF format"
  const WeakPasswordOnCreate :=
    "Password must contain at least 8 characters, including one uppercase letter, one lowercase letter and one number"
  const AlreadyRegistered := "Email or CPF already registered"
  const EmailCannotBeChanged := "Email cannot be changed"
  const WeakPasswordOnUpdate :=
    "Password must contain at least 8 characters, including one uppercase, one lowercase and one number"
}
