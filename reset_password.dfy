/** POST /api/auth/reset-password: replaces an account's password with a code
    issued by send-otp; the code's record is consumed on success. */
module ResetPassword {
  import opened Common
  import opened Store
  import SendOtp

  /** The JSON body; a field is None when absent or not a string. */
  datatype Body = Body(email: Option<string>, otp: Option<string>, password: Option<string>)

  /** The schema's failures, in the order the schema reports them. */
  datatype Issue =
    | EmailRequired | InvalidEmail | EmailTooLong
    | OtpRequired | OtpLength
    | PasswordRequired | PasswordTooShort | PasswordTooLong
    | NoUppercase | NoLowercase | NoDigit | NoSpecial
  {
    /** The message sent back for the first failure. */
    function Message(): string
    {
      match this
      case EmailRequired => "Required"
      case InvalidEmail => "Invalid email"
      case EmailTooLong => "Email cannot exceed 40 characters"
      case OtpRequired => "Required"
      case OtpLength => "OTP must be exactly 6 digits"
      case PasswordRequired => "Required"
      case PasswordTooShort => "Password must be at least 8 characters long"
      case PasswordTooLong => "Password cannot exceed 30 characters"
      case NoUppercase => "Password must contain at least one uppercase letter"
      case NoLowercase => "Password must contain at least one lowercase letter"
      case NoDigit => "Password must contain at least one number"
      case NoSpecial => "Password must contain at least one special character"
    }
  }

  datatype Response =
    | Invalid(message: string)
    | NoOtp
    | Expired
    | WrongOtp
    | ServerError
    | PasswordUpdated
  {
    function StatusCode(): int
    {
      match this
      case Invalid(_) => 400
      case NoOtp => 400
      case Expired => 400
      case WrongOtp => 400
      case ServerError => 500
      case PasswordUpdated => 200
    }
  }

  datatype Outcome = Outcome(response: Response, users: map<Id, User>, otps: map<string, OtpRecord>)

  // ---------------------------------------------------------------------------
  // The password policy

  datatype CharClass = Upper | Lower | Digit | Special

  predicate InClass(c: char, k: CharClass)
  {
    match k
    case Upper => IsUpper(c)
    case Lower => IsLower(c)
    case Digit => IsDigit(c)
    case Special => c in "@$!%*?&"
  }

  /** The character-class test of a pattern such as `/[A-Z]/`, scanning left to right. */
  function HasAny(s: string, k: CharClass): (b: bool)
  {
    if s == [] then false else InClass(s[0], k) || HasAny(s[1..], k)
  }

  lemma {:induction false} HasAnyIff(s: string, k: CharClass)
    ensures HasAny(s, k) <==> exists i :: 0 <= i < |s| && InClass(s[i], k)
  {
    if s != [] {
      HasAnyIff(s[1..], k);
      if HasAny(s[1..], k) {
        var i :| 0 <= i < |s[1..]| && InClass(s[1..][i], k);
        assert InClass(s[i + 1], k);
      }
      if exists i :: 0 <= i < |s| && InClass(s[i], k) {
        var i :| 0 <= i < |s| && InClass(s[i], k);
        if i > 0 {
          assert InClass(s[1..][i - 1], k);
        }
      }
    }
  }

  /** The first failing check on the password. */
  function PasswordIssue(p: string): Option<Issue>
  {
    if |p| < 8 then Some(PasswordTooShort)
    else if |p| > 30 then Some(PasswordTooLong)
    else if !HasAny(p, Upper) then Some(NoUppercase)
    else if !HasAny(p, Lower) then Some(NoLowercase)
    else if !HasAny(p, Digit) then Some(NoDigit)
    else if !HasAny(p, Special) then Some(NoSpecial)
    else None
  }

  /** The policy in one sentence: 8 to 30 characters with an uppercase letter,
      a lowercase letter, a digit and one of @$!%*?& somewhere. */
  lemma PasswordPolicy(p: string)
    ensures PasswordIssue(p).None? <==>
      && 8 <= |p| <= 30
      && (exists i :: 0 <= i < |p| && IsUpper(p[i]))
      && (exists i :: 0 <= i < |p| && IsLower(p[i]))
      && (exists i :: 0 <= i < |p| && IsDigit(p[i]))
      && (exists i :: 0 <= i < |p| && p[i] in "@$!%*?&")
  {
    HasAnyIff(p, Upper);
    HasAnyIff(p, Lower);
    HasAnyIff(p, Digit);
    HasAnyIff(p, Special);
  }

  /** The first issue of the body: fields in schema order, checks in order within a field. */
  function FirstIssue(b: Body): (r: Option<Issue>)
    ensures r.None? <==>
      && b.email.Some? && IsEmail(b.email.value) && |b.email.value| <= 40
      && b.otp.Some? && |b.otp.value| == 6
      && b.password.Some? && PasswordIssue(b.password.value).None?
  {
    if b.email.None? then Some(EmailRequired)
    else if !IsEmail(b.email.value) then Some(InvalidEmail)
    else if |b.email.value| > 40 then Some(EmailTooLong)
    else if b.otp.None? then Some(OtpRequired)
    else if |b.otp.value| != 6 then Some(OtpLength)
    else if b.password.None? then Some(PasswordRequired)
    else PasswordIssue(b.password.value)
  }

  // ---------------------------------------------------------------------------
  // The route

  /** What the route answers and the tables it leaves. The record is checked
      for presence, then expiry (strictly after `expiresAt`), then the code. */
  ghost function Reset(users: map<Id, User>, otps: map<string, OtpRecord>, b: Body, now: int): (o: Outcome)
    ensures o.response != PasswordUpdated ==> o.users == users && o.otps == otps
    ensures FirstIssue(b).Some? ==> o.response == Invalid(FirstIssue(b).value.Message())
    ensures o.response == PasswordUpdated <==>
      && FirstIssue(b).None? && b.email.value in otps
      && now <= otps[b.email.value].expiresAt
      && otps[b.email.value].otp == b.otp.value
      && EmailTaken(users, b.email.value)
    ensures o.response == PasswordUpdated ==>
      var id := UserWithEmail(users, b.email.value);
      && o.users == users[id := users[id].(password := Hash(b.password.value))]
      && o.otps == otps - {b.email.value}
  {
    match FirstIssue(b)
    case Some(issue) => Outcome(Invalid(issue.Message()), users, otps)
    case None =>
      var email := b.email.value;
      if email !in otps then Outcome(NoOtp, users, otps)
      else if now > otps[email].expiresAt then Outcome(Expired, users, otps)
      else if otps[email].otp != b.otp.value then Outcome(WrongOtp, users, otps)
      else if !EmailTaken(users, email) then Outcome(ServerError, users, otps)
      else
        var id := UserWithEmail(users, email);
        Outcome(PasswordUpdated, users[id := users[id].(password := Hash(b.password.value))], otps - {email})
  }

  /** A code works once: the record is gone after a successful reset. */
  lemma CodeSingleUse(users: map<Id, User>, otps: map<string, OtpRecord>, b: Body, now: int, b2: Body, later: int)
    requires Reset(users, otps, b, now).response == PasswordUpdated
    requires FirstIssue(b2).None? && b2.email == b.email
    ensures var o := Reset(users, otps, b, now); Reset(o.users, o.otps, b2, later).response == NoOtp
  {
  }

  /** After a successful reset the new password is the one that matches. */
  lemma NewPasswordMatches(users: map<Id, User>, otps: map<string, OtpRecord>, b: Body, now: int, id: Id)
    requires UniqueAccounts(users) && id in users
    requires Reset(users, otps, b, now).response == PasswordUpdated
    requires users[id].email == b.email.value
    ensures Matches(b.password.value, Reset(users, otps, b, now).users[id].password)
  {
    EmailOwner(users, b.email.value, id);
  }

  /** send-otp issues codes only to addresses with no account, while this
      route updates the account with that address: used right after
      issuance, a correct code leads to the failed update (500). */
  lemma FreshCodeCannotReset(users: map<Id, User>, otps: map<string, OtpRecord>, b: Body, now: int, code: string)
    requires SendOtp.Issues(users, b.email)
    requires FirstIssue(b).None? && b.otp.value == code
    ensures Reset(users, SendOtp.Issue(otps, b.email.value, code, now), b, now).response == ServerError
  {
  }

  /** With codes issued to registered addresses instead, a correct code used
      before it expires replaces the password of the account with that
      address, and the new password is the one that matches. */
  lemma FreshCodeResets(users: map<Id, User>, otps: map<string, OtpRecord>, b: Body, now: int, code: string, id: Id)
    requires SendOtp.IssuesIntended(users, b.email)
    requires FirstIssue(b).None? && b.otp.value == code
    requires UniqueAccounts(users) && id in users && users[id].email == b.email.value
    ensures var o := Reset(users, SendOtp.Issue(otps, b.email.value, code, now), b, now);
      && o.response == PasswordUpdated
      && Matches(b.password.value, o.users[id].password)
      && b.email.value !in o.otps
  {
    var issued := SendOtp.Issue(otps, b.email.value, code, now);
    assert Reset(users, issued, b, now).response == PasswordUpdated;
    NewPasswordMatches(users, issued, b, now, id);
  }

  lemma SetPasswordKeepsValid(users: map<Id, User>, restaurants: map<Id, Restaurant>,
                              menuItems: map<Id, MenuItem>, orders: map<Id, Order>, nextId: Id, id: Id, d: Digest)
    requires ValidTables(users, restaurants, menuItems, orders, nextId) && id in users
    ensures ValidTables(users[id := users[id].(password := d)], restaurants, menuItems, orders, nextId)
  {
    UpdateUserKeepsValid(users, restaurants, menuItems, orders, nextId, id, users[id].(password := d));
  }

  method Post(db: Db, body: Json<Body>, now: int) returns (r: Response)
    requires db.Valid()
    modifies db
    ensures db.Valid()
    ensures body.NotJson? ==> r == ServerError && unchanged(db)
    ensures body.Parsed? ==> r == Reset(old(db.users), old(db.otps), body.value, now).response
    ensures body.Parsed? ==> db.users == Reset(old(db.users), old(db.otps), body.value, now).users
    ensures body.Parsed? ==> db.otps == Reset(old(db.users), old(db.otps), body.value, now).otps
    ensures db.restaurants == old(db.restaurants) && db.menuItems == old(db.menuItems)
    ensures db.orders == old(db.orders) && db.nextId == old(db.nextId)
  {
    if body.NotJson? {
      return ServerError;
    }
    var b := body.value;
    var issue := FirstIssue(b);
    if issue.Some? {
      return Invalid(issue.value.Message());
    }
    var email := b.email.value;
    if email !in db.otps {
      return NoOtp;
    }
    var record := db.otps[email];
    if now > record.expiresAt {
      return Expired;
    }
    if record.otp != b.otp.value {
      return WrongOtp;
    }
    var found := exists k :: k in db.users && db.users[k].email == email;
    if !found {
      // The update finds no row and throws; the record is kept.
      return ServerError;
    }
    var id :| id in db.users && db.users[id].email == email;
    EmailOwner(db.users, email, id);
    SetPasswordKeepsValid(db.users, db.restaurants, db.menuItems, db.orders, db.nextId, id, Hash(b.password.value));
    db.users := db.users[id := db.users[id].(password := Hash(b.password.value))];
    db.otps := db.otps - {email};
    r := PasswordUpdated;
  }
}
