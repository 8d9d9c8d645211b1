# User-account controller, modelled in Dafny

This project models the user controller of a small Express/Sequelize
back end. The controller has five handlers: list users, get a user by id,
create a user, update one's own profile, and delete a user by id. Each
handler runs a short chain of guards and ends in exactly one outcome.

The model makes each handler a pure function over an in-memory user
table, `map<int, User>`. A handler that can write returns the outcome
together with the table it leaves behind. Outcomes stand in for HTTP
responses:

- `Ok(view)`: 200.
- `Created(view)`: 201. The success message is always "User created successfully".
- `NoContent`: 204.
- `BadRequest(msg)`: 400, carrying the controller's exact error text.
- `Forbidden`: 403, "You can only update your own profile".
- `NotFound`: 404, "User not found".

A `UserView` is a user record without the password field, so no outcome
can carry a password.

Files:

- `password_policy.dfy` (`PasswordPolicy`): the password regular
  expression `^(?=.*[a-z])(?=.*[A-Z])(?=.*\d)[a-zA-Z\d]{8,}$`. It has three
  readings:
  - `MatchesPasswordRegex` reads the expression literally, including the
    fact that `.` in the lookaheads does not cross a line terminator;
  - `StrongPassword` states the policy in plain words;
  - `TestPassword` decides it in one pass over the string.

  All three are proved equal on every string.
- `user_model.dfy` (`UserModel`): the `User` record, its `UserView`, the
  store, the request bodies, the outcomes, the error messages, and the
  table invariant `Valid` (each record under its own id, no shared email,
  no shared CPF).
- `user_controller.dfy` (`UserController`): the five handlers. Each
  contract states which guard fires for which input, that every failure
  leaves the table unchanged, and exactly what a success writes.
- `user_properties.dfy` (`UserProperties`): properties that relate several
  calls. They cover reading back what was written, what a repeated update
  or delete does, update guards that fire before the lookup, the fact that
  no response depends on a stored password, the table invariants every
  write keeps, and the repository's own test scenarios.

Inputs that the controller gets from collaborators are parameters:

- The CPF checksum check of the `cpf-cnpj-validator` package is an
  opaque predicate `validCpf: string -> bool`.
- The id that the database assigns to a new row is `freshId`, with
  `freshId !in store`.
- The authenticated caller's id, which the JWT middleware puts on the
  request, is the integer `callerId`.

A request-body field is `Option<string>`. It counts as given (`Supplied`)
when it is present and not empty. This matches the controller's
JavaScript truthiness tests (`!name`, `if (email)`).

Two consequences of the code are worth stating:

- Update rejects an email only when it is truthy (`if (email)`,
  userController.ts:85), so a body with `email: ""` passes that guard.
- The password expression refuses every character that is not an ASCII
  letter or digit, so symbols and spaces are rejected.

## Model

| member | source | states |
|---|---|---|
| `PasswordPolicy.PasswordRegexTest` | backend/src/controllers/userController.ts:50-51 | the regex test succeeds exactly for strings of at least 8 ASCII letters/digits with a lower-case letter, an upper-case letter and a digit |
| `PasswordPolicy.RegexMatchesPolicy` | backend/src/controllers/userController.ts:90 | the literal reading of the expression (lookaheads, `{8,}`, anchors) accepts exactly the plain-words policy |
| `PasswordPolicy.TestPassword` | backend/src/controllers/userController.ts:90-91 | a single left-to-right scan decides both the policy and the literal expression |
| `PasswordPolicy.CreateTestPasswordAccepted` | backend/tests/user.test.ts:29 | the create test's password "minhaCaranga67" passes the policy |
| `PasswordPolicy.UpdateTestPasswordAccepted` | backend/tests/user.test.ts:78 | the update test's new password "newValidPassword1" passes the policy |
| `PasswordPolicy.FixturePasswordAccepted` | backend/tests/helpers/createTestUser.ts:4 | the fixture's default password "DeanTeAmo23" passes the policy |
| `PasswordPolicy.OtherUserPasswordAccepted` | backend/tests/user.test.ts:104 | the second account's password "aPassword123" passes the policy |
| `PasswordPolicy.RefusedExamples` | backend/src/controllers/userController.ts:50-55 | too short, no upper-case, no lower-case, no digit, a symbol, or a space: each is refused |
| `UserController.GetAll` | backend/src/controllers/userController.ts:8-13 | every stored record appears, without password; every listed view is the view of the record under its id |
| `UserController.GetUserById` | backend/src/controllers/userController.ts:20-30 | NotFound exactly for an absent id; otherwise Ok with that record's password-free view |
| `UserController.CreateUser` | backend/src/controllers/userController.ts:37-67 | which of missing fields, invalid CPF, weak password, duplicate email/CPF fires, as an if-and-only-if per message in that order; failures leave the table unchanged; success adds exactly one record with the given fields under the fresh id, touches no other, and answers its password-free view |
| `UserController.UpdateUser` | backend/src/controllers/userController.ts:74-117 | Forbidden exactly when the path id is not the caller's; then email given, then weak password, then absent record, each as an if-and-only-if; failures leave the table unchanged; success rewrites only the target, name and password only when given, always stamps updatedBy with the caller, and never changes any id, email or CPF |
| `UserController.DestroyUserById` | backend/src/controllers/userController.ts:125-133 | NotFound with the table unchanged exactly for an absent id; otherwise NoContent, that key removed and every other record unchanged |
| `UserProperties.ViewHidesPassword` | backend/src/controllers/userController.ts:64-65 | the outbound view is the same whatever the record's password |
| `UserProperties.GetAllAgreesWithGetById` | backend/src/controllers/userController.ts:10-12 | a view is listed exactly when lookup of its id returns it |
| `UserProperties.CreateThenGet` | backend/src/controllers/userController.ts:62-67 | after a successful create, lookup of the new id returns the created view with the given name, email and CPF and no updater, and the table grew by one |
| `UserProperties.SecondCreateWithSameKeyFails` | backend/src/controllers/userController.ts:57-60 | once an account exists, a create reusing its email or CPF fails, leaves the table as it was, and reports a duplicate when it passes the earlier guards |
| `UserProperties.UpdateThenGet` | backend/src/controllers/userController.ts:110-116 | the view an update answers is what a lookup of the record returns afterwards |
| `UserProperties.UpdateIsIdempotent` | backend/src/controllers/userController.ts:103-108 | repeating a successful update yields the same outcome and table |
| `UserProperties.UpdateGuardsIgnoreStore` | backend/src/controllers/userController.ts:80-96 | a Forbidden or BadRequest from update is the same on every table and changes none, so it is decided before the lookup |
| `UserProperties.DeleteThenGet` | backend/src/controllers/userController.ts:128-133 | after deleting an id, lookup of it is NotFound, lookups of other ids are unchanged, a second delete is NotFound, and the table shrank by one |
| `UserProperties.ReadsIgnoreStoredPasswords` | backend/src/controllers/userController.ts:23-25 | on tables that differ only in passwords, listing and lookup answer alike |
| `UserProperties.CreateIgnoresStoredPasswords` | backend/src/controllers/userController.ts:57-67 | on tables that differ only in passwords, create answers alike and leaves tables that differ only in passwords |
| `UserProperties.WritesIgnoreStoredPasswords` | backend/src/controllers/userController.ts:98-116 | on tables that differ only in passwords, update and delete answer alike and leave tables that differ only in passwords |
| `UserProperties.HandlersPreserveValid` | backend/src/controllers/userController.ts:57-62 | create, update and delete keep every record under its own id and every email and CPF unique |
| `UserProperties.HandlersPreserveAdmitted` | backend/src/controllers/userController.ts:41-55 | if every record has non-empty fields, a valid CPF and a strong password, the same holds after create, update and delete |
| `UserProperties.InvalidCpfScenario` | backend/tests/user.test.ts:38-49 | a create with CPF "123" is answered "Invalid CPF format" and changes nothing |
| `UserProperties.CreateScenario` | backend/tests/user.test.ts:19-35 | a complete create on an empty table is Created, with the given name and no password |
| `UserProperties.UpdateScenarios` | backend/tests/user.test.ts:72-114 | renaming with a new strong password succeeds, an email in the body is refused, and updating another user is Forbidden |

## Left out

- HTTP plumbing: Express requests, responses and status codes are replaced by the `Outcome` variant. The success messages are fixed per variant and are not modelled as data.
- Every `catch` branch that answers 500, and `console.error` logging. These are persistence faults and I/O outside the controller's logic.
- The CPF checksum algorithm and `cpf.generate()`. They belong to the third-party `cpf-cnpj-validator` package, so the checksum is the opaque predicate `validCpf`.
- Sequelize itself: `findAll`, `findByPk`, `findOne` with `Op.or`, `create`, `update`, `destroy`, `get()` and the table schema. Each is replaced by a map operation. Uniqueness compares strings exactly; any database collation is not modelled.
- Id assignment for new rows is the database's job. It is the `freshId` parameter.
- Parsing the path id: the model takes one integer `pathId` for every use of the path. In the code only `updateUser` calls `parseInt`, and only for the ownership test (userController.ts:80); its lookups (:98, :110), `getUserById` (:23) and `destroyUserById` (:128) pass the raw path string to `findByPk`. The model assumes the parsed and the raw id name the same row, so a path such as `1abc`, which passes the ownership test as 1 while the lookup receives `"1abc"`, is not modelled.
- Interleaving of requests: each handler is one atomic step. In the code, `createUser` awaits `findOne` (:57) before `create` (:62), and `updateUser` awaits `findByPk` (:98), `update` (:108) and `findByPk` (:110) in turn, so concurrent requests can interleave between them. `UserProperties.HandlersPreserveValid` and `UserProperties.SecondCreateWithSameKeyFails` hold for requests handled one at a time; under concurrent creates, email and CPF uniqueness depends on the database's own constraints.
- Authentication and the JWT middleware: the caller's id arrives as an integer.
- Non-string JSON values in a request body: each field is either absent or a string.
- Password hashing: it is not part of the controller.
- The `createdAt`/`updatedAt` timestamps that Sequelize adds to a record. They involve the clock.
- UserController.GetAll: returns a set of views, so it says nothing about the row order of `findAll`.
