# User table and refresh-token sessions

A Dafny model of the user and authentication services of a NestJS recruitment backend.

The users service owns the Mongo `users` collection. At start-up it seeds an empty collection with
five accounts. It registers and creates users after a duplicate-email check, looks them up by id
and by email, soft-deletes them and applies patch updates. The authentication service validates
a username/password pair against the stored bcrypt hash. It signs one identity payload into an
access token and a refresh token. It keeps the current refresh token in the user's
`refreshToken` field: login writes it, refresh overwrites it, logout sets it to `""`.

Layout:

- `records.dfy` (module `Records`): the record type, the table `map<Id, User>`, each change the
  services make as a pure function on the table (`Seeded`, `Inserted`, `SoftDeleted`,
  `Patched`, `WithToken`), and the lemmas about them. Also a `Mutation` datatype and `Run`,
  used to state properties of any sequence of changes.
- `users_service.dfy` (module `Users`): class `UsersService`. Its field `users` holds the
  collection. Each method's `ensures` ties the new table to one of the functions above.
- `auth_service.dfy` (module `Auth`): class `AuthService`. It holds a reference to the
  `UsersService` and runs the session transitions on its table. Lemmas about rotation and
  revocation follow the class.

Library calls are class constants of function type with no stated properties:

- bcrypt `hashSync` is `hash(plaintext, salt)` and `compareSync` is `compare(a, b)`.
- JWT `sign` is `sign(secret, claims)` and `verify` is `verify(secret, token, now)`.
- `ObjectId.isValid` is `validId(id)`.

The rest of the environment comes in as parameters:

- the generated salt;
- the `_id`s the database assigns;
- the current date (`createdDate`) and the time a token is verified at;
- the configured initial password.

The code has none of the following, and neither does the model:

- Lookups and the duplicate-email check do not skip soft-deleted records. Registering the
  email of a deleted account is refused.
- Nothing protects the administrator account from deletion.
- `update` raises no error when no record matches.
- The stored role is the string `'USER'`, not a reference to a role record.
- Refresh-token rotation has no compare-and-swap. It is modelled as one atomic step.
- `update` does not keep emails unique (`Records.UpdateCanDuplicateEmail`).

## Model

| member | source | states |
|---|---|---|
| `Records.SeedingCreatesFiveAccounts` | src/users/users.service.ts:27-55 | seeding an empty table gives exactly five well-keyed records whose emails are the five seed addresses, pairwise distinct, all with the same password hash, no role, no token, not deleted |
| `Records.SeedingRunsOnce` | src/users/users.service.ts:24-26 | a non-empty table is left unchanged, so a second seeding run, with any ids or hash, changes nothing |
| `Users.UsersService.OnModuleInit` | src/users/users.service.ts:24-57 | the new table is the seeded one when the old table was empty (five records, all with the hash of the configured password) and the old table otherwise |
| `Users.UsersService.FindByEmail` | src/users/users.service.ts:64-66 | returns some stored record with that email, deleted or not; returns none exactly when no record has it |
| `Users.UsersService.FindOneByUsername` | src/users/users.service.ts:79-84 | the same email lookup, the username being the email |
| `Users.UsersService.FindOne` | src/users/users.service.ts:72-78 | 'not found user' exactly when the id is not a valid ObjectId; otherwise the record stored under that id, present exactly when one is |
| `Users.UsersService.CheckUserPassword` | src/users/users.service.ts:85-88 | a side-effect-free boolean: the comparison of the plaintext candidate with the stored hash |
| `Users.UsersService.CheckPassword` | src/users/users.service.ts:68-70 | passes its arguments in the opposite order: `CheckPassword(h, p)` is `CheckUserPassword(h, p)`, so the hash sits in the candidate position |
| `Users.UsersService.Register` | src/users/users.service.ts:107-123 | a taken email (no deleted filter) gives the email-exists error and no change; otherwise exactly one record is added with the given name, email and age, role USER and the hash of the password, and all other records stay as they were |
| `Users.UsersService.Create` | src/users/users.service.ts:124-154 | the same duplicate-email refusal; a missing company fails with no change; otherwise one new record with role USER, the company's id and name, `createdBy` set to the actor's id and email, and `createdDate` set to the given date |
| `Users.UsersService.Remove` | src/users/users.service.ts:90-105 | an invalid id gives 'not found user' and no change; otherwise the matching record gets `deletedBy` set to the actor and is flagged deleted, with no record removed |
| `Users.UsersService.Update` | src/users/users.service.ts:157-170 | the table becomes the patched table: the given fields are written to the record with the patch's id and `updatefBy` is stamped; no match means no change and no error; the matched count is 1 or 0 |
| `Users.UsersService.UpdateUserToken` | src/auth/auth.service.ts:47 | overwrites the refresh token of the record with that id and nothing else |
| `Users.UsersService.FindUserByToken` | src/auth/auth.service.ts:96 | returns some record whose current refresh token is exactly the given one; returns none exactly when no record holds it |
| `Records.Inserted` | src/users/users.service.ts:116-121 | inserting a record under a fresh id adds exactly that key and leaves every existing record unchanged |
| `Records.SoftDeleted` | src/users/users.service.ts:94-104 | soft delete keeps the key set; it sets the flag and `deletedBy` on the target, changes no other field of it, and changes no other record |
| `Records.Patched` | src/users/users.service.ts:158-168 | for each patch field, present means written and absent means kept; `updatefBy` is stamped; password, token, deletion state and creation stamps are untouched; other records are unchanged; a missing target means no change |
| `Records.WithToken` | src/auth/auth.service.ts:145-148 | a token write sets one record's `refreshToken` and leaves its other fields and every other record as they were |
| `Records.InsertKeepsEmailsUnique` | src/users/users.service.ts:110-121 | inserting only when the email is not taken keeps emails unique across the table |
| `Records.UpdateCanDuplicateEmail` | src/users/users.service.ts:157-168 | a table with unique emails, well keyed, exists that a patch leaves with a duplicate email: update does not preserve uniqueness |
| `Records.HoldersAfterWrite` | src/auth/auth.service.ts:110-114 | after a token write to a stored record, a token is held exactly when it is the written one or some other record held it before |
| `Records.OverwrittenTokenIsRetired` | src/auth/auth.service.ts:110-114 | when the only holder of a token overwrites it with a different one, nobody holds it any more |
| `Records.RecordsArePermanent` | src/users/users.service.ts:90-105 | across any sequence of seeding, inserts, soft deletes, updates and token writes, no record disappears or changes its id; a deleted record stays deleted; `createdBy` and `createdDate` never change; the table stays well keyed |
| `Records.TokenWritesTouchOnlyTokens` | src/auth/auth.service.ts:44-47 | any sequence of token writes (login, rotation, logout) keeps the key set and changes no field except `refreshToken` |
| `Auth.AuthService.CreateRefreshToken` | src/auth/auth.service.ts:81-87 | the refresh token is the payload signed with the refresh configuration (`RefreshSecret`), separate from the access-token configuration (`AccessSecret`) used for the access token |
| `Auth.ClaimsFor` | src/auth/auth.service.ts:35-43 | the payload carries subject "token login" and issuer "from server", and the user's id, name, email and role read back from it unchanged |
| `Auth.AuthService.ValidateUser` | src/auth/auth.service.ts:22-32 | a non-null answer is a stored record with that email whose hash matches the password; no record with that email gives null; a null answer means no record has the email or some record with it fails the comparison; when exactly one record has the email, the answer is non-null exactly when its hash matches; nothing is written |
| `Auth.AuthService.Login` | src/auth/auth.service.ts:34-66 | the user's stored refresh token becomes the refresh signature of the login payload, and nothing else changes; the returned access token is the access signature of the same payload; the view is exactly id, name, email and role |
| `Auth.AuthService.Register` | src/auth/auth.service.ts:68-79 | a taken email gives the single "Failed to create user." error and no change; otherwise one record is inserted and only its id and (unset) `createdDate` are returned |
| `Auth.AuthService.ProcessNewToken` | src/auth/auth.service.ts:90-143 | a token that does not verify, or that no user holds, gives the single invalid-token error and no change; otherwise the call succeeds: it overwrites the holder's token with the refresh signature of the holder's payload, changes nothing else, and returns the access signature of that payload with the holder's four-field view |
| `Auth.AuthService.Logout` | src/auth/auth.service.ts:145-152 | the user's refresh token becomes `""` and the reply is `" ok"` |
| `Auth.LoginTokenIsHeld` | src/auth/auth.service.ts:44-47 | after login of a stored user, the issued refresh token is held, so it can be refreshed while it verifies; login for an unknown id changes nothing |
| `Auth.ReplayAfterRotationFails` | src/auth/auth.service.ts:96-114 | if the holder was the only record with the presented token, then after rotation that token is held by nobody exactly when the new token differs from it |
| `Auth.LogoutRevokes` | src/auth/auth.service.ts:145-148 | after logout, a non-empty token the user alone held is held by nobody, while `""` is now held |
| `Auth.LogoutIdempotent` | src/auth/auth.service.ts:145-148 | logging out twice gives the same table as logging out once |

## Left out

- Cryptography: the model says nothing about bcrypt salting and hashing, JWT signing, secrets,
  token lifetimes or `iat`/`exp` claims. Signing is deterministic in its payload. Nothing
  claims that a rotated token differs from the presented one.
- Cookies: the `response.cookie` / `clearCookie` calls in login, refresh and logout are
  transport and are not modelled.
- Configuration: the `ConfigService` lookups and the `ms(...)` and `/ 1000` conversions are not
  modelled. The initial password is a constant of the service.
- `findAll` is a plain read of the whole collection. Logging is not modelled.
- `updateUserToken` and `findUserByToken` are defined outside `users.service.ts`. They are not
  part of this model beyond their use at the call sites: one overwrites a single record's token,
  the other returns some current holder.
- The soft-delete plug-in and Mongoose: the model assumes that `count`, `findOne` and
  `softDelete` do not filter deleted records and that `softDelete` only sets the flag. The
  `deletedAt` stamp, schema defaults and casting errors for a malformed `_id` in `update` are
  not modelled.
- The user schema and the DTO classes are not part of this model. The patch carries name,
  email, age, role and company. Register and create accept `address` and never store it.
- Records.Patched: `update` writes every field its argument carries (`...userUpdate`), and which
  fields those are is decided by the update DTO, which is not part of this model. The patch
  here has five fields, so "password, token, deletion state and creation stamps are untouched"
  holds for that five-field patch only.
- Records.RecordsArePermanent: across updates, "a deleted record stays deleted" and "`createdBy`
  and `createdDate` never change" hold only for the five-field patch. An update whose argument
  carried `isDeleted`, `createdBy` or `createdDate` would overwrite them.
- Users.UsersService.Register, Users.UsersService.Create: the `_id` the database generates is a
  parameter required to be new to the table.
- Failures of the database itself, such as lost connections or a failing token write during
  refresh, are not modelled. Every operation is atomic and sequential. Two concurrent refreshes
  are out of scope.
- Auth.AuthService.Login: `user` is taken as the four fields login reads. The source accepts any
  object with them.
