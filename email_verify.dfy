/** POST /api/auth/verify: confirms an account's email address with the code
    issued at signup; an account is confirmed at most once. */
module EmailVerify {
  import opened Common
  import opened Store

  /** The JSON body; a field is None when absent or not a string. */
  datatype Body = Body(email: Option<string>, otp: Option<string>)

  datatype Response = InvalidInput | UserNotFound | AlreadyVerified | InvalidOtp | Verified | ServerError
  {
    function StatusCode(): int
    {
      match this
      case InvalidInput => 400
      case UserNotFound => 404
      case AlreadyVerified => 400
      case InvalidOtp => 400
      case Verified => 200
      case ServerError => 500
    }
  }

  datatype Outcome = Outcome(response: Response, users: map<Id, User>)

  /** The body schema: an email address and a code of exactly six characters. */
  predicate ValidBody(b: Body)
  {
    b.email.Some? && IsEmail(b.email.value) && b.otp.Some? && |b.otp.value| == 6
  }

  /** The account after confirmation: verified, its code cleared, nothing else changed. */
  function Confirmed(u: User): (v: User)
    ensures v.isVerified && v.otp.None?
    ensures v.(isVerified := u.isVerified, otp := u.otp) == u
  {
    u.(isVerified := true, otp := None)
  }

  /** What the route answers and the user table it leaves, check by check. */
  ghost function Verify(users: map<Id, User>, b: Body): (o: Outcome)
    ensures o.response != Verified ==> o.users == users
    ensures o.response == Verified <==>
      ValidBody(b) && EmailTaken(users, b.email.value)
      && !users[UserWithEmail(users, b.email.value)].isVerified
      && users[UserWithEmail(users, b.email.value)].otp == b.otp
    ensures o.response == Verified ==>
      var id := UserWithEmail(users, b.email.value);
      o.users == users[id := Confirmed(users[id])]
  {
    if !ValidBody(b) then Outcome(InvalidInput, users)
    else if !EmailTaken(users, b.email.value) then Outcome(UserNotFound, users)
    else
      var id := UserWithEmail(users, b.email.value);
      if users[id].isVerified then Outcome(AlreadyVerified, users)
      else if users[id].otp != b.otp then Outcome(InvalidOtp, users)
      else Outcome(Verified, users[id := Confirmed(users[id])])
  }

  /** A confirmed account cannot be confirmed again: the same request, or any
      other one for that address, is answered "already verified". */
  lemma {:induction false} SecondVerifyFails(users: map<Id, User>, b: Body, b2: Body)
    requires UniqueAccounts(users)
    requires Verify(users, b).response == Verified
    requires ValidBody(b2) && b2.email == b.email
    ensures Verify(Verify(users, b).users, b2).response == AlreadyVerified
  {
    var id := UserWithEmail(users, b.email.value);
    var after := Verify(users, b).users;
    assert after == users[id := Confirmed(users[id])];
    UpdateUserKeepsUnique(users, id, Confirmed(users[id]));
    EmailOwner(after, b.email.value, id);
  }

  method Post(db: Db, body: Json<Body>) returns (r: Response)
    requires db.Valid()
    modifies db
    ensures db.Valid()
    ensures body.NotJson? ==> r == ServerError && unchanged(db)
    ensures body.Parsed? ==> r == Verify(old(db.users), body.value).response
    ensures body.Parsed? ==> db.users == Verify(old(db.users), body.value).users
    ensures db.restaurants == old(db.restaurants) && db.menuItems == old(db.menuItems)
    ensures db.orders == old(db.orders) && db.otps == old(db.otps) && db.nextId == old(db.nextId)
  {
    if body.NotJson? {
      return ServerError;
    }
    var b := body.value;
    if !ValidBody(b) {
      return InvalidInput;
    }
    var email := b.email.value;
    var found := exists k :: k in db.users && db.users[k].email == email;
    if !found {
      return UserNotFound;
    }
    var id :| id in db.users && db.users[id].email == email;
    EmailOwner(db.users, email, id);
    var u := db.users[id];
    if u.isVerified {
      return AlreadyVerified;
    }
    if u.otp != b.otp {
      return InvalidOtp;
    }
    UpdateUserKeepsValid(db.users, db.restaurants, db.menuItems, db.orders, db.nextId, id, Confirmed(u));
    db.users := db.users[id := Confirmed(u)];
    r := Verified;
  }
}
