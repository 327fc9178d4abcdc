/** POST /api/auth/signup: a new, unverified account with an emailed one-time code. */
module Signup {
  import opened Common
  import opened Store

  /** The optional `phoneNumber` field: absent, a string, or some other JSON value. */
  datatype PhoneField = Absent | Text(s: string) | NotText

  /** The JSON body; a required field is None when absent or not a string. */
  datatype Body = Body(
    firstName: Option<string>,
    lastName: Option<string>,
    email: Option<string>,
    username: Option<string>,
    password: Option<string>,
    phoneNumber: PhoneField)

  /** The account fields echoed back; the password and the code are not among them. */
  datatype Summary = Summary(id: Id, firstName: string, lastName: string, email: string, username: string)

  datatype Response =
    | InvalidInput
    | EmailExists
    | UsernameExists
    | PhoneExists
    | ServerError
    | Created(user: Summary)
  {
    function StatusCode(): int
    {
      match this
      case InvalidInput => 400
      case EmailExists => 409
      case UsernameExists => 409
      case PhoneExists => 409
      case ServerError => 500
      case Created(_) => 201
    }
  }

  /** The body schema: names of at least 2 characters, an email, a username of
      at least 3, a password of at least 8, and a phone number that is a string if sent. */
  predicate ValidBody(b: Body)
  {
    && b.firstName.Some? && |b.firstName.value| >= 2
    && b.lastName.Some? && |b.lastName.value| >= 2
    && b.email.Some? && IsEmail(b.email.value)
    && b.username.Some? && |b.username.value| >= 3
    && b.password.Some? && |b.password.value| >= 8
    && !b.phoneNumber.NotText?
  }

  function StoredPhone(p: PhoneField): (r: Option<string>)
    ensures r.Some? <==> p.Text?
    ensures r.Some? ==> r.value == p.s
  {
    if p.Text? then Some(p.s) else None
  }

  /** The phone number is looked up only when it is a non-empty string. */
  predicate PhoneChecked(p: PhoneField)
  {
    p.Text? && p.s != ""
  }

  /** The account created for a valid body and a code. */
  function NewUser(b: Body, otp: string): (u: User)
    requires ValidBody(b)
    ensures !u.isVerified && u.role == "user" && u.otp == Some(otp)
    ensures u.email == b.email.value && u.username == b.username.value
    ensures Matches(b.password.value, u.password)
    ensures u.phoneNumber == StoredPhone(b.phoneNumber)
  {
    User(b.firstName.value, b.lastName.value, b.email.value, b.username.value, Hash(b.password.value),
         StoredPhone(b.phoneNumber), Some(otp), false, "user", None, None, None, None, None)
  }

  /** The bodies that create an account: valid, and every unique column free. */
  ghost predicate Accepted(users: map<Id, User>, b: Body)
  {
    && ValidBody(b) && !EmailTaken(users, b.email.value) && !UsernameTaken(users, b.username.value)
    && (b.phoneNumber.Text? ==> !PhoneTaken(users, b.phoneNumber.s))
  }

  /** Inserting a row whose unique columns are all free keeps every table invariant. */
  lemma InsertUserKeepsValid(users: map<Id, User>, restaurants: map<Id, Restaurant>,
                             menuItems: map<Id, MenuItem>, orders: map<Id, Order>, id: Id, u: User)
    requires ValidTables(users, restaurants, menuItems, orders, id)
    requires !EmailTaken(users, u.email) && !UsernameTaken(users, u.username)
    requires u.phoneNumber.Some? ==> !PhoneTaken(users, u.phoneNumber.value)
    ensures id !in users
    ensures ValidTables(users[id := u], restaurants, menuItems, orders, id + 1)
  {
    var us := users[id := u];
    forall a, b | a in us && b in us && a != b
      ensures us[a].email != us[b].email && us[a].username != us[b].username
      ensures us[a].phoneNumber.Some? ==> us[a].phoneNumber != us[b].phoneNumber
    {
      if a == id {
        assert us[b] == users[b];
      } else if b == id {
        assert us[a] == users[a];
      }
    }
  }

  /** `user.create`: the new row takes the next key. */
  method Insert(db: Db, u: User) returns (id: Id)
    requires db.Valid()
    requires !EmailTaken(db.users, u.email) && !UsernameTaken(db.users, u.username)
    requires u.phoneNumber.Some? ==> !PhoneTaken(db.users, u.phoneNumber.value)
    modifies db
    ensures db.Valid()
    ensures id == old(db.nextId) && id !in old(db.users)
    ensures db.users == old(db.users)[id := u] && db.nextId == id + 1
    ensures db.restaurants == old(db.restaurants) && db.menuItems == old(db.menuItems)
    ensures db.orders == old(db.orders) && db.otps == old(db.otps)
  {
    id := db.nextId;
    InsertUserKeepsValid(db.users, db.restaurants, db.menuItems, db.orders, id, u);
    db.users := db.users[id := u];
    db.nextId := id + 1;
  }

  /** Each rejection leaves the store unchanged; the checks come in the order
      schema, email, username, phone. A sent empty phone number is stored as
      such, so it collides with another empty one at insertion (500). */
  method Post(db: Db, body: Json<Body>) returns (r: Response)
    requires db.Valid()
    modifies db
    ensures db.Valid()
    ensures body.NotJson? ==> r == ServerError && unchanged(db)
    ensures body.Parsed? ==> (var b := body.value;
      !ValidBody(b) ==> r == InvalidInput)
    ensures body.Parsed? ==> (var b := body.value;
      ValidBody(b) && EmailTaken(old(db.users), b.email.value) ==> r == EmailExists)
    ensures body.Parsed? ==> (var b := body.value;
      (ValidBody(b) && !EmailTaken(old(db.users), b.email.value)
         && UsernameTaken(old(db.users), b.username.value)) ==> r == UsernameExists)
    ensures body.Parsed? ==> (var b := body.value;
      (ValidBody(b) && !EmailTaken(old(db.users), b.email.value)
         && !UsernameTaken(old(db.users), b.username.value)
         && PhoneChecked(b.phoneNumber) && PhoneTaken(old(db.users), b.phoneNumber.s)) ==> r == PhoneExists)
    ensures body.Parsed? ==> (var b := body.value;
      (ValidBody(b) && !EmailTaken(old(db.users), b.email.value)
         && !UsernameTaken(old(db.users), b.username.value)
         && b.phoneNumber == Text("") && PhoneTaken(old(db.users), "")) ==> r == ServerError)
    ensures body.Parsed? ==> (var b := body.value;
      r.Created? <==> Accepted(old(db.users), b))
    ensures !r.Created? ==> unchanged(db)
    ensures body.Parsed? ==> (var b := body.value;
      r.Created? ==>
        var id := old(db.nextId);
        && id !in old(db.users) && db.nextId == id + 1
        && (exists code :: 100000 <= code <= 999999 && db.users == old(db.users)[id := NewUser(b, DecimalString(code))])
        && |db.users[id].otp.value| == 6
        && r.user == Summary(id, b.firstName.value, b.lastName.value, b.email.value, b.username.value)
        && db.restaurants == old(db.restaurants) && db.menuItems == old(db.menuItems)
        && db.orders == old(db.orders) && db.otps == old(db.otps))
  {
    if body.NotJson? {
      return ServerError;
    }
    var b := body.value;
    if !ValidBody(b) {
      return InvalidInput;
    }
    var email, username := b.email.value, b.username.value;
    var byEmail := exists k :: k in db.users && db.users[k].email == email;
    if byEmail {
      return EmailExists;
    }
    var byUsername := exists k :: k in db.users && db.users[k].username == username;
    if byUsername {
      return UsernameExists;
    }
    if b.phoneNumber.Text? {
      var phone := b.phoneNumber.s;
      var byPhone := exists k :: k in db.users && db.users[k].phoneNumber == Some(phone);
      if byPhone {
        if phone != "" {
          return PhoneExists;
        }
        // Not looked up, but the unique phone column refuses the insert.
        return ServerError;
      }
    }
    var code :| 100000 <= code <= 999999;
    SixDigits(code);
    var u := NewUser(b, DecimalString(code));
    var id := Insert(db, u);
    // The verification email is sent next; a failure there is logged and ignored.
    r := Created(Summary(id, u.firstName, u.lastName, u.email, u.username));
  }
}
