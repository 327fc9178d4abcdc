/** POST /api/auth/verify-otp: the looser confirmation used by the code-entry
    page. There is no format check and no "already verified" check, and the
    stored code is compared with whatever JSON value was sent. */
module OtpVerify {
  import opened Common
  import opened Store

  /** The `otp` field as JSON: absent, null, a string, or anything else. */
  datatype OtpValue = Missing | Null | Str(s: string) | OtherValue

  /** `email` is None when absent or not a string (the store lookup then throws). */
  datatype Body = Body(email: Option<string>, otp: OtpValue)

  datatype Response = InvalidOtp | Verified | ServerError
  {
    function StatusCode(): int
    {
      match this
      case InvalidOtp => 400
      case Verified => 200
      case ServerError => 500
    }
  }

  datatype Outcome = Outcome(response: Response, users: map<Id, User>)

  /** Strict equality between the stored code (a string or null) and the sent value. */
  predicate SameCode(stored: Option<string>, sent: OtpValue)
  {
    match stored
    case None => sent.Null?
    case Some(c) => sent == Str(c)
  }

  ghost function VerifyOtp(users: map<Id, User>, b: Body): (o: Outcome)
    ensures o.response != Verified ==> o.users == users
    ensures o.response == ServerError <==> b.email.None?
    ensures o.response == Verified <==>
      b.email.Some? && EmailTaken(users, b.email.value)
      && SameCode(users[UserWithEmail(users, b.email.value)].otp, b.otp)
    ensures o.response == Verified ==>
      var id := UserWithEmail(users, b.email.value);
      o.users == users[id := users[id].(isVerified := true, otp := None)]
  {
    if b.email.None? then Outcome(ServerError, users)
    else if !EmailTaken(users, b.email.value) then Outcome(InvalidOtp, users)
    else
      var id := UserWithEmail(users, b.email.value);
      if !SameCode(users[id].otp, b.otp) then Outcome(InvalidOtp, users)
      else Outcome(Verified, users[id := users[id].(isVerified := true, otp := None)])
  }

  /** A code works once: after a confirmation the stored code is null, so the
      same string is refused. */
  lemma {:induction false} CodeSingleUse(users: map<Id, User>, email: string, code: string)
    requires UniqueAccounts(users)
    requires VerifyOtp(users, Body(Some(email), Str(code))).response == Verified
    ensures VerifyOtp(VerifyOtp(users, Body(Some(email), Str(code))).users, Body(Some(email), Str(code))).response == InvalidOtp
  {
    var id := UserWithEmail(users, email);
    var u := users[id].(isVerified := true, otp := None);
    UpdateUserKeepsUnique(users, id, u);
    EmailOwner(users[id := u], email, id);
  }

  /** A JSON null is strictly equal to a cleared code: it confirms any account
      whose code is null, including one that is already verified. */
  lemma NullMatchesClearedCode(users: map<Id, User>, id: Id)
    requires UniqueAccounts(users) && id in users && users[id].otp.None?
    ensures VerifyOtp(users, Body(Some(users[id].email), Null)).response == Verified
  {
    EmailOwner(users, users[id].email, id);
  }

  method Post(db: Db, body: Json<Body>) returns (r: Response)
    requires db.Valid()
    modifies db
    ensures db.Valid()
    ensures body.NotJson? ==> r == ServerError && unchanged(db)
    ensures body.Parsed? ==> r == VerifyOtp(old(db.users), body.value).response
    ensures body.Parsed? ==> db.users == VerifyOtp(old(db.users), body.value).users
    ensures db.restaurants == old(db.restaurants) && db.menuItems == old(db.menuItems)
    ensures db.orders == old(db.orders) && db.otps == old(db.otps) && db.nextId == old(db.nextId)
  {
    if body.NotJson? {
      return ServerError;
    }
    var b := body.value;
    if b.email.None? {
      return ServerError;
    }
    var email := b.email.value;
    var found := exists k :: k in db.users && db.users[k].email == email;
    if !found {
      return InvalidOtp;
    }
    var id :| id in db.users && db.users[id].email == email;
    EmailOwner(db.users, email, id);
    if !SameCode(db.users[id].otp, b.otp) {
      return InvalidOtp;
    }
    var u := db.users[id].(isVerified := true, otp := None);
    UpdateUserKeepsValid(db.users, db.restaurants, db.menuItems, db.orders, db.nextId, id, u);
    db.users := db.users[id := u];
    r := Verified;
  }
}
