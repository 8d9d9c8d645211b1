/**
 The five handlers of the user controller as pure transitions over the
 store. Each handler runs its guards in the order the controller does and
 ends in exactly one outcome; a handler that can write also returns the
 store it leaves behind.

 The CPF checksum belongs to a third-party validator and is passed in as
 the predicate `validCpf`. The id the database would assign to a new row
 is passed in as `freshId`. The caller's id, which the authentication
 middleware attaches to the request, is the plain integer `callerId`.
 */
module UserController {
  import opened PasswordPolicy
  import opened UserModel

  /** Listing: every record, each without its password. */
  function GetAll(store: Store): (r: set<UserView>)
    ensures forall k :: k in store ==> ToView(store[k]) in r
    ensures KeysMatchIds(store) ==>
      forall v :: v in r ==> v.id in store && ToView(store[v.id]) == v
  {
    set k | k in store :: ToView(store[k])
  }

  /** Lookup by primary key; the record is returned without its password. */
  function GetUserById(store: Store, id: int): (r: Outcome)
    ensures r == NotFound <==> id !in store
    ensures r.Ok? <==> id in store
    ensures r.Ok? ==> r.view == ToView(store[id])
  {
    if id !in store then NotFound else Ok(ToView(store[id]))
  }

  /** All four fields of a create request are given. */
  predicate AllSupplied(body: CreateBody) {
    Supplied(body.name) && Supplied(body.email) && Supplied(body.cpf) && Supplied(body.password)
  }

  /** Account creation. Guards, first failure wins: all four fields given,
      a valid CPF, a password the regular expression accepts, and no
      record already holding the email or the CPF. */
  function CreateUser(store: Store, body: CreateBody, validCpf: string -> bool, freshId: int): (r: Reply)
    requires freshId !in store
    ensures r.outcome == BadRequest(AllFieldsRequired) <==> !AllSupplied(body)
    ensures r.outcome == BadRequest(InvalidCpf) <==>
      AllSupplied(body) && !validCpf(body.cpf.value)
    ensures r.outcome == BadRequest(WeakPasswordOnCreate) <==>
      AllSupplied(body) && validCpf(body.cpf.value) && !StrongPassword(body.password.value)
    ensures r.outcome == BadRequest(AlreadyRegistered) <==>
      && AllSupplied(body) && validCpf(body.cpf.value) && StrongPassword(body.password.value)
      && Registered(store, body.email.value, body.cpf.value)
    ensures r.outcome.Created? <==>
      && AllSupplied(body) && validCpf(body.cpf.value) && StrongPassword(body.password.value)
      && !Registered(store, body.email.value, body.cpf.value)
    ensures !r.outcome.Created? ==> r.store == store
    ensures r.outcome.Created? ==>
      && AllSupplied(body)
      && r.store.Keys == store.Keys + {freshId}
      && (forall k :: k in store ==> r.store[k] == store[k])
      && r.store[freshId] == User(freshId, body.name.value, body.email.value, body.cpf.value,
                                  body.password.value, None)
      && r.outcome.view == ToView(r.store[freshId])
  {
    if !AllSupplied(body) then
      Reply(BadRequest(AllFieldsRequired), store)
    else
      var name, email, cpf, password := body.name.value, body.email.value, body.cpf.value, body.password.value;
      if !validCpf(cpf) then
        Reply(BadRequest(InvalidCpf), store)
      else if !PasswordRegexTest(password) then
        Reply(BadRequest(WeakPasswordOnCreate), store)
      else if Registered(store, email, cpf) then
        Reply(BadRequest(AlreadyRegistered), store)
      else
        var u := User(freshId, name, email, cpf, password, None);
        Reply(Created(ToView(u)), store[freshId := u])
  }

  /** Self-service profile update. Guards, first failure wins: the caller
      owns the path id, no email in the body, any given password accepted
      by the regular expression, and the record exists. Then the given
      name and password are written and the record is stamped with the
      caller's id. */
  function UpdateUser(store: Store, pathId: int, callerId: int, body: UpdateBody): (r: Reply)
    ensures r.outcome == Forbidden <==> pathId != callerId
    ensures r.outcome == BadRequest(EmailCannotBeChanged) <==>
      pathId == callerId && Supplied(body.email)
    ensures r.outcome == BadRequest(WeakPasswordOnUpdate) <==>
      && pathId == callerId && !Supplied(body.email)
      && Supplied(body.password) && !StrongPassword(body.password.value)
    ensures r.outcome == NotFound <==>
      && pathId == callerId && !Supplied(body.email)
      && (Supplied(body.password) ==> StrongPassword(body.password.value))
      && pathId !in store
    ensures r.outcome.Ok? <==>
      && pathId == callerId && !Supplied(body.email)
      && (Supplied(body.password) ==> StrongPassword(body.password.value))
      && pathId in store
    ensures !r.outcome.Ok? ==> r.store == store
    ensures r.store.Keys == store.Keys
    ensures forall k :: k in store && k != pathId ==> r.store[k] == store[k]
    ensures forall k :: k in store ==>
      r.store[k].id == store[k].id && r.store[k].email == store[k].email && r.store[k].cpf == store[k].cpf
    ensures r.outcome.Ok? ==>
      && pathId in store
      && r.store[pathId].name == (if Supplied(body.name) then body.name.value else store[pathId].name)
      && r.store[pathId].password == (if Supplied(body.password) then body.password.value else store[pathId].password)
      && r.store[pathId].updatedBy == Some(callerId)
      && r.outcome.view == ToView(r.store[pathId])
  {
    if pathId != callerId then
      Reply(Forbidden, store)
    else if Supplied(body.email) then
      Reply(BadRequest(EmailCannotBeChanged), store)
    else if Supplied(body.password) && !PasswordRegexTest(body.password.value) then
      Reply(BadRequest(WeakPasswordOnUpdate), store)
    else if pathId !in store then
      Reply(NotFound, store)
    else
      var current := store[pathId];
      var updated := current.(
        name := if Supplied(body.name) then body.name.value else current.name,
        password := if Supplied(body.password) then body.password.value else current.password,
        updatedBy := Some(callerId));
      Reply(Ok(ToView(updated)), store[pathId := updated])
  }

  /** Deletion by primary key; no body on success. */
  function DestroyUserById(store: Store, id: int): (r: Reply)
    ensures r.outcome == NotFound <==> id !in store
    ensures r.outcome == NoContent <==> id in store
    ensures id !in store ==> r.store == store
    ensures r.store.Keys == store.Keys - {id}
    ensures forall k :: k in r.store ==> r.store[k] == store[k]
  {
    if id !in store then Reply(NotFound, store) else Reply(NoContent, store - {id})
  }
}
