/** The user service: the collection as a mutable table, the start-up seeding, registration and
    administrative creation with their duplicate-email check, lookups, soft delete and patch update,
    and the two token operations the authentication service relies on. */
module Users {
  import opened Records

  /** Registration input; `address` is accepted but never stored. */
  datatype RegisterForm = RegisterForm(
    name: string, email: string, password: string, age: Option<int>, address: Option<string>)

  /** Administrative creation input; `company` may be missing from the request body. */
  datatype CreateForm = CreateForm(
    name: string, email: string, password: string, company: Option<Company>,
    age: Option<int>, address: Option<string>)

  datatype UserError =
    | EmailExists(email: string)   // BadRequest "Email đã tồn tại <email>"
    | CompanyUndefined             // reading `company._id` of an absent company

  /** Result of an id-checked lookup: the string 'not found user' for a malformed id,
      otherwise whatever `findOne({_id})` gives back. */
  datatype Lookup = NotFoundUser | Found(user: Option<User>)

  /** Result of `remove`: 'not found user' for a malformed id, otherwise whether a record matched. */
  datatype Removal = RemoveRejected | SoftDeleteIssued(matched: bool)

  function RegisteredRecord(id: Id, form: RegisterForm, passwordHash: string): User
  {
    User(id, form.name, form.email, passwordHash, form.age, Some("USER"),
         None, None, None, None, false, None, None)
  }

  function CreatedRecord(id: Id, form: CreateForm, company: Company, creator: Stamp, date: Date,
                         passwordHash: string): User
  {
    User(id, form.name, form.email, passwordHash, form.age, Some("USER"),
         Some(Company(company.id, company.name)), Some(creator), Some(date), None, false, None, None)
  }

  class UsersService {
    var users: Table

    /** `mongoose.Types.ObjectId.isValid` */
    const validId: Id -> bool
    /** bcrypt `hashSync(plaintext, salt)` */
    const hash: (string, Salt) -> string
    /** bcrypt `compareSync(candidate, hash)` */
    const compare: (string, string) -> bool
    /** the configured INIT_USER_PASSWORD */
    const initPassword: string

    ghost predicate Valid()
      reads this
    {
      WellKeyed(users)
    }

    constructor (stored: Table, validId: Id -> bool, hash: (string, Salt) -> string,
                 compare: (string, string) -> bool, initPassword: string)
      requires WellKeyed(stored)
      ensures Valid() && users == stored
      ensures this.validId == validId && this.hash == hash && this.compare == compare
      ensures this.initPassword == initPassword
    {
      users := stored;
      this.validId := validId;
      this.hash := hash;
      this.compare := compare;
      this.initPassword := initPassword;
    }

    /** Start-up seeding: an empty collection receives the five accounts, all with one hash of
        the configured password; a non-empty one is left alone. `ids` are the ids the store
        assigns, `salt` the generated salt. */
    method OnModuleInit(ids: seq<Id>, salt: Salt)
      requires Valid() && SeedIds(ids)
      modifies this
      ensures Valid()
      ensures users == Seeded(old(users), ids, hash(initPassword, salt))
      ensures old(|users|) != 0 ==> users == old(users)
      ensures old(|users|) == 0 ==>
        |users| == 5 && forall id :: id in users ==> users[id].password == hash(initPassword, salt)
    {
      if |users| == 0 {
        var passwordHash := hash(initPassword, salt);
        SeedingCreatesFiveAccounts(ids, passwordHash);
        users := SeedTable(ids, passwordHash);
      }
    }

    /** `findOne({ email })`: some record with that email, deleted or not; none only when no
        record has it. */
    method FindByEmail(email: string) returns (r: Option<User>)
      requires Valid()
      ensures r.Some? ==> r.value.id in users && users[r.value.id] == r.value && r.value.email == email
      ensures r.None? <==> !EmailTaken(users, email)
    {
      if id :| id in users && users[id].email == email {
        r := Some(users[id]);
      } else {
        r := None;
      }
    }

    /** The same query under the name the login strategy uses: the username is the email. */
    method FindOneByUsername(username: string) returns (r: Option<User>)
      requires Valid()
      ensures r.Some? ==> r.value.id in users && users[r.value.id] == r.value && r.value.email == username
      ensures r.None? <==> !EmailTaken(users, username)
    {
      r := FindByEmail(username);
    }

    /** `findOne(id)`: a malformed id is answered with 'not found user' before any query;
        otherwise the record stored under that id, if any. */
    function FindOne(id: Id): (r: Lookup)
      requires Valid()
      reads this
      ensures r == NotFoundUser <==> !validId(id)
      ensures r.Found? ==> (r.user.Some? <==> id in users)
      ensures r.Found? && r.user.Some? ==> r.user.value.id == id && r.user.value == users[id]
    {
      if !validId(id) then NotFoundUser
      else if id in users then Found(Some(users[id]))
      else Found(None)
    }

    /** `checkUserPassword(password, hash)`: the plaintext candidate first, the stored hash second. */
    function CheckUserPassword(password: string, passwordHash: string): (ok: bool)
      ensures ok == compare(password, passwordHash)
    {
      compare(password, passwordHash)
    }

    /** `checkPassword(hash, plain)` hands its arguments to the comparison in the order it
        received them, so the hash lands in the candidate position: it is `CheckUserPassword`
        with the roles of the two strings exchanged. */
    function CheckPassword(passwordHash: string, plain: string): (ok: bool)
      ensures ok == CheckUserPassword(passwordHash, plain)
    {
      compare(passwordHash, plain)
    }

    /** `register`: a taken email (deleted records included) is refused and nothing changes;
        otherwise exactly one record is added under the fresh id `newId`, with role USER and
        the hash of the password. */
    method Register(form: RegisterForm, newId: Id, salt: Salt) returns (r: Result<User, UserError>)
      requires Valid() && newId !in users
      modifies this
      ensures Valid()
      ensures old(EmailTaken(users, form.email)) ==>
        r == Failure(EmailExists(form.email)) && users == old(users)
      ensures !old(EmailTaken(users, form.email)) ==>
        r == Success(RegisteredRecord(newId, form, hash(form.password, salt))) &&
        users == Inserted(old(users), r.value)
    {
      var existing := FindByEmail(form.email);
      if existing.Some? {
        return Failure(EmailExists(form.email));
      }
      var passwordHash := hash(form.password, salt);
      var u := RegisteredRecord(newId, form, passwordHash);
      users := Inserted(users, u);
      r := Success(u);
    }

    /** `create`: the same duplicate-email refusal; a missing company fails when its `_id` is
        read; otherwise one record with role USER, the company's id and name, the creator's
        id and email and the creation date. */
    method Create(form: CreateForm, creator: Stamp, newId: Id, salt: Salt, now: Date)
      returns (r: Result<User, UserError>)
      requires Valid() && newId !in users
      modifies this
      ensures Valid()
      ensures old(EmailTaken(users, form.email)) ==>
        r == Failure(EmailExists(form.email)) && users == old(users)
      ensures !old(EmailTaken(users, form.email)) && form.company.None? ==>
        r == Failure(CompanyUndefined) && users == old(users)
      ensures !old(EmailTaken(users, form.email)) && form.company.Some? ==>
        r == Success(CreatedRecord(newId, form, form.company.value, creator, now, hash(form.password, salt))) &&
        users == Inserted(old(users), r.value)
    {
      var existing := FindByEmail(form.email);
      if existing.Some? {
        return Failure(EmailExists(form.email));
      }
      var passwordHash := hash(form.password, salt);
      if form.company.None? {
        return Failure(CompanyUndefined);
      }
      var u := CreatedRecord(newId, form, form.company.value, creator, now, passwordHash);
      users := Inserted(users, u);
      r := Success(u);
    }

    /** `remove`: a malformed id is answered with 'not found user' and nothing changes;
        otherwise the matching record, if any, is stamped and flagged as deleted, never removed. */
    method Remove(id: Id, actor: Stamp) returns (r: Removal)
      requires Valid()
      modifies this
      ensures Valid()
      ensures !validId(id) ==> r == RemoveRejected && users == old(users)
      ensures validId(id) ==> r == SoftDeleteIssued(id in old(users)) && users == SoftDeleted(old(users), id, actor)
    {
      if !validId(id) {
        return RemoveRejected;
      }
      r := SoftDeleteIssued(id in users);
      users := SoftDeleted(users, id, actor);
      SoftDeleteSurvives(old(users), id, actor);
    }

    /** `update`: the patch is applied to the record with the patch's id and `updatefBy` is
        stamped; when no record matches nothing changes and no error is raised. The result is
        the number of records matched. */
    method Update(patch: Patch, actor: Stamp) returns (matched: nat)
      requires Valid()
      modifies this
      ensures Valid()
      ensures matched == (if patch.id in old(users) then 1 else 0)
      ensures users == Patched(old(users), patch, actor)
    {
      matched := if patch.id in users then 1 else 0;
      PatchSurvives(users, patch, actor);
      users := Patched(users, patch, actor);
    }

    /** `updateUserToken(token, id)`: overwrite one record's refresh token. */
    method UpdateUserToken(token: string, id: Id)
      requires Valid()
      modifies this
      ensures Valid()
      ensures users == WithToken(old(users), id, token)
    {
      users := WithToken(users, id, token);
    }

    /** `findUserByToken(token)`: some record currently holding the token, or none when no
        record does. */
    method FindUserByToken(token: string) returns (r: Option<User>)
      requires Valid()
      ensures r.Some? ==> r.value.id in users && users[r.value.id] == r.value && r.value.refreshToken == Some(token)
      ensures r.None? <==> !HoldsToken(users, token)
    {
      if id :| id in users && users[id].refreshToken == Some(token) {
        r := Some(users[id]);
      } else {
        r := None;
      }
    }
  }
}
