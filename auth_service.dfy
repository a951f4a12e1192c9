/** The authentication service: password validation, login, registration, and the refresh-token
    lifecycle (issue on login, rotate on refresh, clear on logout) kept in each user's
    `refreshToken` field of the shared user table. */
module Auth {
  import opened Records
  import opened Users

  /** The two signing configurations: the default one for access tokens, and the one with the
      refresh secret and refresh lifetime for refresh tokens. */
  datatype Secret = AccessSecret | RefreshSecret

  const TOKEN_SUBJECT := "token login"
  const TOKEN_ISSUER := "from server"
  const LOGOUT_REPLY := " ok"

  /** The identity fields a session exposes: never the password. */
  datatype UserView = UserView(id: Id, name: string, email: string, role: Option<string>)

  /** The payload signed into both tokens. */
  datatype Claims = Claims(sub: string, iss: string, id: Id, name: string, email: string, role: Option<string>)

  /** What login and refresh return: the access token and the user view. */
  datatype Session = Session(accessToken: string, user: UserView)

  /** What registration returns. */
  datatype Registration = Registration(id: Id, createdDate: Option<Date>)

  datatype AuthError =
    | InvalidRefreshToken   // " refresh token không hợp lệ , Vui lòng login "
    | FailedToCreateUser    // "Failed to create user."

  function ViewOf(u: User): UserView
  {
    UserView(u.id, u.name, u.email, u.role)
  }

  function IdentityOf(c: Claims): UserView
  {
    UserView(c.id, c.name, c.email, c.role)
  }

  /** The login payload: fixed subject and issuer markers around the user's identity, which
      reads back unchanged from the claims. */
  function ClaimsFor(v: UserView): (c: Claims)
    ensures c.sub == TOKEN_SUBJECT && c.iss == TOKEN_ISSUER
    ensures IdentityOf(c) == v
  {
    Claims(TOKEN_SUBJECT, TOKEN_ISSUER, v.id, v.name, v.email, v.role)
  }

  class AuthService {
    const users: UsersService
    /** JWT `sign(payload, options)` under the given configuration. */
    const sign: (Secret, Claims) -> string
    /** JWT `verify(token, options)` at the given time: signature and expiry. */
    const verify: (Secret, string, Date) -> bool

    constructor (users: UsersService, sign: (Secret, Claims) -> string, verify: (Secret, string, Date) -> bool)
      ensures this.users == users && this.sign == sign && this.verify == verify
    {
      this.users := users;
      this.sign := sign;
      this.verify := verify;
    }

    /** `createRefreshToken(payload)`: the payload signed with the refresh configuration, not
        the access-token one. */
    function CreateRefreshToken(c: Claims): (token: string)
      ensures token == sign(RefreshSecret, c)
    {
      sign(RefreshSecret, c)
    }

    /** `validateUser`: the record found by email when the password matches its hash, null
        otherwise; nothing is written. Null means no record has the email or the one found fails
        the comparison. When the email is held by one record only, the answer is
        non-null exactly when that record's hash matches the password. */
    method ValidateUser(username: string, pass: string) returns (r: Option<User>)
      requires users.Valid()
      ensures r.Some? ==>
        r.value.id in users.users && users.users[r.value.id] == r.value &&
        r.value.email == username && users.compare(pass, r.value.password)
      ensures !EmailTaken(users.users, username) ==> r.None?
      ensures UniqueEmail(users.users, username) ==>
        (r.Some? <==> exists id :: id in users.users && users.users[id].email == username &&
                                   users.compare(pass, users.users[id].password))
      ensures r.None? ==>
        !EmailTaken(users.users, username) ||
        exists id :: id in users.users && users.users[id].email == username &&
                     !users.compare(pass, users.users[id].password)
    {
      var found := users.FindOneByUsername(username);
      if found.Some? {
        var ok := users.CheckUserPassword(pass, found.value.password);
        if ok {
          return found;
        }
      }
      r := None;
    }

    /** `login`: one payload built from the user's id, name, email and role is signed twice; the
        refresh-configured signature becomes that user's stored refresh token (no other field
        or record changes) and the access token is returned with the four-field view. */
    method Login(user: UserView) returns (s: Session)
      requires users.Valid()
      modifies users
      ensures users.Valid()
      ensures users.users == WithToken(old(users.users), user.id, CreateRefreshToken(ClaimsFor(user)))
      ensures s == Session(sign(AccessSecret, ClaimsFor(user)), user)
    {
      var claims := ClaimsFor(user);
      var refreshToken := CreateRefreshToken(claims);
      users.UpdateUserToken(refreshToken, user.id);
      s := Session(sign(AccessSecret, claims), user);
    }

    /** `register`: the new record's id and creation date; every failure of the user service,
        a taken email included, becomes the one generic error and leaves the table as it was. */
    method Register(form: RegisterForm, newId: Id, salt: Salt) returns (r: Result<Registration, AuthError>)
      requires users.Valid() && newId !in users.users
      modifies users
      ensures users.Valid()
      ensures old(EmailTaken(users.users, form.email)) ==>
        r == Failure(FailedToCreateUser) && users.users == old(users.users)
      ensures !old(EmailTaken(users.users, form.email)) ==>
        r == Success(Registration(newId, None)) &&
        users.users == Inserted(old(users.users), RegisteredRecord(newId, form, users.hash(form.password, salt)))
    {
      var created := users.Register(form, newId, salt);
      match created
      case Success(u) =>
        r := Success(Registration(u.id, u.createdDate));
      case Failure(_) =>
        r := Failure(FailedToCreateUser);
    }

    /** `processNewtoken`: a token that fails verification at `now`, or that no user currently
        holds, is answered with the one invalid-token error and nothing changes. Otherwise the
        holder's view is signed anew: its refresh token replaces the presented one in that record
        alone, and the access token and view are returned. */
    method ProcessNewToken(token: string, now: Date) returns (r: Result<Session, AuthError>)
      requires users.Valid()
      modifies users
      ensures users.Valid()
      ensures !verify(RefreshSecret, token, now) || !old(HoldsToken(users.users, token)) ==>
        r == Failure(InvalidRefreshToken) && users.users == old(users.users)
      ensures verify(RefreshSecret, token, now) && old(HoldsToken(users.users, token)) ==> r.Success?
      ensures r.Success? ==>
        var holder := r.value.user.id;
        holder in old(users.users) && old(users.users)[holder].refreshToken == Some(token) &&
        r.value.user == ViewOf(old(users.users)[holder]) &&
        r.value.accessToken == sign(AccessSecret, ClaimsFor(r.value.user)) &&
        users.users == WithToken(old(users.users), holder, CreateRefreshToken(ClaimsFor(r.value.user)))
    {
      if !verify(RefreshSecret, token, now) {
        return Failure(InvalidRefreshToken);
      }
      var found := users.FindUserByToken(token);
      if found.None? {
        return Failure(InvalidRefreshToken);
      }
      var view := ViewOf(found.value);
      var claims := ClaimsFor(view);
      var rotated := CreateRefreshToken(claims);
      users.UpdateUserToken(rotated, view.id);
      r := Success(Session(sign(AccessSecret, claims), view));
    }

    /** `logout`: the user's stored refresh token becomes the empty string. */
    method Logout(user: Stamp) returns (reply: string)
      requires users.Valid()
      modifies users
      ensures users.Valid()
      ensures users.users == WithToken(old(users.users), user.id, "")
      ensures reply == LOGOUT_REPLY
    {
      users.UpdateUserToken("", user.id);
      reply := LOGOUT_REPLY;
    }
  }

  /** After login of a stored user the issued refresh token is held, so presenting it to refresh
      succeeds whenever it still verifies; a login for an id with no record stores nothing. */
  lemma LoginTokenIsHeld(t: Table, v: UserView, refreshToken: string)
    ensures v.id in t ==> HoldsToken(WithToken(t, v.id, refreshToken), refreshToken)
    ensures v.id !in t ==> WithToken(t, v.id, refreshToken) == t
  {
    if v.id in t {
      assert WithToken(t, v.id, refreshToken)[v.id].refreshToken == Some(refreshToken);
    }
  }

  /** Replay after rotation: if the holder was the only record with the presented token and
      the newly signed token differs from it, no record holds the presented token afterwards,
      so presenting it again fails. Signing is deterministic, so a rotation that signs the
      same payload into the same token keeps it valid. */
  lemma ReplayAfterRotationFails(t: Table, holder: Id, presented: string, rotated: string)
    requires holder in t && t[holder].refreshToken == Some(presented)
    requires forall k :: k in t && t[k].refreshToken == Some(presented) ==> k == holder
    ensures !HoldsToken(WithToken(t, holder, rotated), presented) <==> rotated != presented
  {
    if rotated != presented {
      OverwrittenTokenIsRetired(t, holder, presented, rotated);
    } else {
      assert WithToken(t, holder, rotated)[holder].refreshToken == Some(presented);
    }
  }

  /** Logout revokes: after it, a non-empty token the user alone held is held by nobody. The
      user now holds the empty string, so the empty string stays "held" and only its failing
      verification keeps it from refreshing. */
  lemma LogoutRevokes(t: Table, id: Id, last: string)
    requires id in t && t[id].refreshToken == Some(last)
    requires forall k :: k in t && t[k].refreshToken == Some(last) ==> k == id
    ensures last != "" ==> !HoldsToken(WithToken(t, id, ""), last)
    ensures HoldsToken(WithToken(t, id, ""), "")
  {
    if last != "" {
      OverwrittenTokenIsRetired(t, id, last, "");
    }
    assert WithToken(t, id, "")[id].refreshToken == Some("");
  }

  /** Logging out twice leaves the table as logging out once. */
  lemma LogoutIdempotent(t: Table, id: Id)
    ensures WithToken(WithToken(t, id, ""), id, "") == WithToken(t, id, "")
  {
  }
}
