/** The credentials sign-in and the token and session callbacks of the
    authentication setup: who may sign in, and what the token and the
    session then carry. */
module Auth {
  import opened Common
  import opened Store

  /** The submitted form; a field is None when absent. */
  datatype Credentials = Credentials(email: Option<string>, password: Option<string>)

  /** The user object handed to the session machinery: the selected columns
      without the password, plus `name` and `isAdmin`. */
  datatype AuthUser = AuthUser(
    id: Id,
    email: string,
    firstName: string,
    lastName: string,
    username: string,
    isVerified: bool,
    role: string,
    profileImage: Option<string>,
    name: string,
    isAdmin: bool)

  /** One error for every refusal, so a caller cannot tell which check failed. */
  datatype AuthResult = InvalidCredentials | Authorized(user: AuthUser)

  function Profile(id: Id, u: User): (a: AuthUser)
    ensures a.id == id && a.email == u.email && a.role == u.role && a.isVerified == u.isVerified
    ensures a.name == u.username
    ensures a.isAdmin <==> u.role == "admin"
  {
    AuthUser(id, u.email, u.firstName, u.lastName, u.username, u.isVerified, u.role, u.profileImage,
             u.username, u.role == "admin")
  }

  /** `authorize`: both fields non-empty, an account with that email, and a
      password that matches its digest. Verification status is not consulted. */
  ghost function Authorize(users: map<Id, User>, c: Credentials): (r: AuthResult)
    ensures r.Authorized? <==>
      && NonEmpty(c.email).Some? && NonEmpty(c.password).Some?
      && EmailTaken(users, c.email.value)
      && Matches(c.password.value, users[UserWithEmail(users, c.email.value)].password)
    ensures r.Authorized? ==>
      var id := UserWithEmail(users, c.email.value);
      r.user == Profile(id, users[id])
  {
    if NonEmpty(c.email).None? || NonEmpty(c.password).None? then InvalidCredentials
    else if !EmailTaken(users, c.email.value) then InvalidCredentials
    else
      var id := UserWithEmail(users, c.email.value);
      if !Matches(c.password.value, users[id].password) then InvalidCredentials
      else Authorized(Profile(id, users[id]))
  }

  /** An account signs in with its own password whether or not its email was verified. */
  lemma OwnPasswordSignsIn(users: map<Id, User>, id: Id, password: string)
    requires UniqueAccounts(users) && id in users
    requires users[id].email != "" && password != ""
    requires users[id].password == Hash(password)
    ensures Authorize(users, Credentials(Some(users[id].email), Some(password))) == Authorized(Profile(id, users[id]))
  {
    EmailOwner(users, users[id].email, id);
  }

  /** Any other password is refused with the same error as an unknown address. */
  lemma WrongPasswordRefused(users: map<Id, User>, id: Id, password: string, other: string)
    requires UniqueAccounts(users) && id in users
    requires users[id].password == Hash(password) && other != password
    ensures Authorize(users, Credentials(Some(users[id].email), Some(other))) == InvalidCredentials
  {
    EmailOwner(users, users[id].email, id);
  }

  /** The signed token's claims; `id` and `role` are added by the `jwt` callback. */
  class Token {
    var name: Option<string>
    var email: Option<string>
    var id: Option<Id>
    var role: Option<string>

    constructor (name: Option<string>, email: Option<string>)
      ensures this.name == name && this.email == email && id.None? && role.None?
    {
      this.name, this.email := name, email;
      id, role := None, None;
    }

    /** The `jwt` callback: at sign-in (a user is present) the token takes the
        user's id and role; on later calls it is returned unchanged. */
    method Jwt(user: Option<AuthUser>)
      modifies this
      ensures user.Some? ==> id == Some(user.value.id) && role == Some(user.value.role)
      ensures user.None? ==> id == old(id) && role == old(role)
      ensures name == old(name) && email == old(email)
    {
      if user.Some? {
        id := Some(user.value.id);
        role := Some(user.value.role);
      }
    }
  }

  datatype SessionUser = SessionUser(name: Option<string>, email: Option<string>, image: Option<string>,
                                     id: Option<Id>, role: Option<string>)

  /** The session object returned to the client. */
  class Session {
    var user: Option<SessionUser>
    var expires: string

    constructor (user: Option<SessionUser>, expires: string)
      ensures this.user == user && this.expires == expires
    {
      this.user, this.expires := user, expires;
    }

    /** The `session` callback: when the session has a user, that user takes
        the token's id and role; nothing else changes. */
    method FromToken(token: Token)
      modifies this
      ensures old(user).Some? ==> user == Some(old(user).value.(id := token.id, role := token.role))
      ensures old(user).None? ==> user.None?
      ensures expires == old(expires)
    {
      if user.Some? {
        user := Some(user.value.(id := token.id, role := token.role));
      }
    }
  }

  /** A sign-in end to end: on success the token, and through it the session's
      user, carry the account's id and role. */
  method SignIn(db: Db, c: Credentials, token: Token, session: Session) returns (r: AuthResult)
    requires db.Valid() && session.user.Some?
    modifies token, session
    ensures r == Authorize(db.users, c)
    ensures r.Authorized? ==>
      && token.id == Some(r.user.id) && token.role == Some(r.user.role)
      && session.user.Some? && session.user.value.id == Some(r.user.id) && session.user.value.role == Some(r.user.role)
    ensures !r.Authorized? ==> unchanged(token) && unchanged(session)
    ensures token.name == old(token.name) && token.email == old(token.email) && session.expires == old(session.expires)
  {
    if NonEmpty(c.email).None? || NonEmpty(c.password).None? {
      return InvalidCredentials;
    }
    var email := c.email.value;
    var found := exists k :: k in db.users && db.users[k].email == email;
    if !found {
      return InvalidCredentials;
    }
    var id :| id in db.users && db.users[id].email == email;
    EmailOwner(db.users, email, id);
    if !Matches(c.password.value, db.users[id].password) {
      return InvalidCredentials;
    }
    r := Authorized(Profile(id, db.users[id]));
    token.Jwt(Some(r.user));
    session.FromToken(token);
  }
}
