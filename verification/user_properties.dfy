/**
 Properties that relate several handler calls, or one handler on two
 stores: reading back what was written, the password never reaching a
 response, guards that fire before the record is looked up, and the
 record-level invariant every write keeps.
 */
module UserProperties {
  import opened PasswordPolicy
  import opened UserModel
  import opened UserController

  /** A record that could have been written by the handlers: non-empty
      name, email and CPF, a CPF the validator accepts and a password the
      policy accepts. */
  predicate Admissible(u: User, validCpf: string -> bool) {
    u.name != "" && u.email != "" && u.cpf != "" && validCpf(u.cpf) && StrongPassword(u.password)
  }

  ghost predicate Admitted(store: Store, validCpf: string -> bool) {
    forall k :: k in store ==> Admissible(store[k], validCpf)
  }

  /** The view of a record does not depend on its password. */
  lemma ViewHidesPassword(u: User, p: string)
    ensures ToView(u.(password := p)) == ToView(u)
  {
  }

  /** Listing agrees with lookup: a view is listed exactly when looking up
      its id returns it. */
  lemma GetAllAgreesWithGetById(store: Store, v: UserView)
    requires KeysMatchIds(store)
    ensures v in GetAll(store) <==> GetUserById(store, v.id) == Ok(v)
  {
  }

  /** A created account reads back with the fields it was created with,
      no password, no updater yet, and the table grows by one. */
  lemma CreateThenGet(store: Store, body: CreateBody, validCpf: string -> bool, freshId: int)
    requires freshId !in store
    requires CreateUser(store, body, validCpf, freshId).outcome.Created?
    ensures AllSupplied(body)
    ensures var got := GetUserById(CreateUser(store, body, validCpf, freshId).store, freshId);
      && got == Ok(CreateUser(store, body, validCpf, freshId).outcome.view)
      && got.view == UserView(freshId, body.name.value, body.email.value, body.cpf.value, None)
    ensures |CreateUser(store, body, validCpf, freshId).store| == |store| + 1
  {
  }

  /** Once an account exists, a second create carrying the same email or
      the same CPF fails and changes nothing; when it gets past the first
      three guards it fails as a duplicate. */
  lemma SecondCreateWithSameKeyFails(
    store: Store, first: CreateBody, second: CreateBody, validCpf: string -> bool, id1: int, id2: int)
    requires id1 !in store
    requires CreateUser(store, first, validCpf, id1).outcome.Created?
    requires id2 !in CreateUser(store, first, validCpf, id1).store
    requires second.email == first.email || second.cpf == first.cpf
    ensures var s1 := CreateUser(store, first, validCpf, id1).store;
      var r2 := CreateUser(s1, second, validCpf, id2);
      && r2.outcome.BadRequest?
      && r2.store == s1
      && (AllSupplied(second) && validCpf(second.cpf.value) && StrongPassword(second.password.value)
          ==> r2.outcome.msg == AlreadyRegistered)
  {
  }

  /** After a successful update, looking the record up returns the view
      the update responded with. */
  lemma UpdateThenGet(store: Store, pathId: int, callerId: int, body: UpdateBody)
    requires UpdateUser(store, pathId, callerId, body).outcome.Ok?
    ensures var r := UpdateUser(store, pathId, callerId, body);
      GetUserById(r.store, pathId) == r.outcome
  {
  }

  /** Repeating a successful update changes nothing further. */
  lemma UpdateIsIdempotent(store: Store, pathId: int, callerId: int, body: UpdateBody)
    requires UpdateUser(store, pathId, callerId, body).outcome.Ok?
    ensures var r := UpdateUser(store, pathId, callerId, body);
      UpdateUser(r.store, pathId, callerId, body) == r
  {
  }

  /** The ownership, email and password guards of update are decided
      before the record is looked up: whenever one of them fires, it
      fires the same way on any other store. */
  lemma UpdateGuardsIgnoreStore(s1: Store, s2: Store, pathId: int, callerId: int, body: UpdateBody)
    requires UpdateUser(s1, pathId, callerId, body).outcome.Forbidden?
          || UpdateUser(s1, pathId, callerId, body).outcome.BadRequest?
    ensures UpdateUser(s2, pathId, callerId, body) == Reply(UpdateUser(s1, pathId, callerId, body).outcome, s2)
  {
  }

  /** Deleting a record makes it unreadable and leaves every other lookup
      as it was; deleting it again reports it missing. */
  lemma DeleteThenGet(store: Store, id: int, other: int)
    requires id in store
    requires other != id
    ensures var s := DestroyUserById(store, id).store;
      && GetUserById(s, id) == NotFound
      && GetUserById(s, other) == GetUserById(store, other)
      && DestroyUserById(s, id) == Reply(NotFound, s)
      && |s| == |store| - 1
  {
  }

  /** Reading never depends on a stored password: on two stores that
      differ only in passwords, listing and lookup answer alike. */
  lemma ReadsIgnoreStoredPasswords(s1: Store, s2: Store, id: int)
    requires SamePublicData(s1, s2)
    ensures GetAll(s1) == GetAll(s2)
    ensures GetUserById(s1, id) == GetUserById(s2, id)
  {
  }

  /** Create answers alike on two stores that differ only in passwords,
      and leaves stores that again differ only in passwords. */
  lemma CreateIgnoresStoredPasswords(
    s1: Store, s2: Store, body: CreateBody, validCpf: string -> bool, freshId: int)
    requires SamePublicData(s1, s2)
    requires freshId !in s1
    ensures CreateUser(s1, body, validCpf, freshId).outcome == CreateUser(s2, body, validCpf, freshId).outcome
    ensures SamePublicData(CreateUser(s1, body, validCpf, freshId).store, CreateUser(s2, body, validCpf, freshId).store)
  {
  }

  /** Update and delete answer alike on two stores that differ only in
      passwords, and leave stores that again differ only in passwords. */
  lemma WritesIgnoreStoredPasswords(s1: Store, s2: Store, id: int, callerId: int, body: UpdateBody)
    requires SamePublicData(s1, s2)
    ensures UpdateUser(s1, id, callerId, body).outcome == UpdateUser(s2, id, callerId, body).outcome
    ensures SamePublicData(UpdateUser(s1, id, callerId, body).store, UpdateUser(s2, id, callerId, body).store)
    ensures DestroyUserById(s1, id).outcome == DestroyUserById(s2, id).outcome
    ensures SamePublicData(DestroyUserById(s1, id).store, DestroyUserById(s2, id).store)
  {
  }

  /** Every write keeps the table free of duplicate emails and CPFs and
      keeps each record under its own id. */
  lemma HandlersPreserveValid(
    store: Store, id: int, callerId: int,
    createBody: CreateBody, updateBody: UpdateBody, validCpf: string -> bool, freshId: int)
    requires Valid(store)
    requires freshId !in store
    ensures Valid(CreateUser(store, createBody, validCpf, freshId).store)
    ensures Valid(UpdateUser(store, id, callerId, updateBody).store)
    ensures Valid(DestroyUserById(store, id).store)
  {
  }

  /** Every write keeps each record admissible: create admits only
      complete records with a valid CPF and a strong password, update
      writes only a non-empty name and a strong password, and delete
      writes nothing. */
  lemma HandlersPreserveAdmitted(
    store: Store, id: int, callerId: int,
    createBody: CreateBody, updateBody: UpdateBody, validCpf: string -> bool, freshId: int)
    requires Admitted(store, validCpf)
    requires freshId !in store
    ensures Admitted(CreateUser(store, createBody, validCpf, freshId).store, validCpf)
    ensures Admitted(UpdateUser(store, id, callerId, updateBody).store, validCpf)
    ensures Admitted(DestroyUserById(store, id).store, validCpf)
  {
  }

  /** The create scenario of the repository's tests with CPF "123": the
      request is refused for its CPF. */
  lemma InvalidCpfScenario(validCpf: string -> bool)
    requires !validCpf("123")
    ensures var dean := CreateBody(Some("Dean Winchester"), Some("dean@gmail.com"), Some("123"), Some("minhaCaranga67"));
      CreateUser(map[], dean, validCpf, 1) == Reply(BadRequest(InvalidCpf), map[])
  {
  }

  /** The successful create scenario of the repository's tests: on an
      empty table a complete request with a valid CPF is created and
      answered without its password. */
  lemma CreateScenario(validCpf: string -> bool, cpf: string)
    requires cpf != "" && validCpf(cpf)
    ensures var dean := CreateBody(Some("Dean Winchester"), Some("dean@gmail.com"), Some(cpf), Some("minhaCaranga67"));
      CreateUser(map[], dean, validCpf, 1).outcome == Created(UserView(1, "Dean Winchester", "dean@gmail.com", cpf, None))
  {
    var dean := CreateBody(Some("Dean Winchester"), Some("dean@gmail.com"), Some(cpf), Some("minhaCaranga67"));
    CreateTestPasswordAccepted();
    assert AllSupplied(dean);
    assert !Registered(map[], "dean@gmail.com", cpf);
  }

  /** The update scenarios of the repository's tests, on a table whose
      account 1 is the caller's own: a name and password change succeeds,
      an email in the body is refused, and updating account 2 is
      forbidden. */
  lemma UpdateScenarios(cpf: string, otherCpf: string)
    ensures var jimmy := User(1, "Jimmy Novak", "user@example.com", cpf, "DeanTeAmo23", None);
      var r := UpdateUser(map[1 := jimmy], 1, 1, UpdateBody(Some("Castiel Novak"), Some("newValidPassword1"), None));
      r.outcome == Ok(UserView(1, "Castiel Novak", "user@example.com", cpf, Some(1)))
    ensures var jimmy := User(1, "Jimmy Novak", "user@example.com", cpf, "DeanTeAmo23", None);
      UpdateUser(map[1 := jimmy], 1, 1, UpdateBody(None, None, Some("newemail@gmail.com"))).outcome
        == BadRequest(EmailCannotBeChanged)
    ensures var jimmy := User(1, "Jimmy Novak", "user@example.com", cpf, "DeanTeAmo23", None);
      var other := User(2, "Other User", "other@user.com", otherCpf, "aPassword123", None);
      UpdateUser(map[1 := jimmy, 2 := other], 2, 1, UpdateBody(Some("Hacked"), None, None)).outcome == Forbidden
  {
    UpdateTestPasswordAccepted();
  }
}
