/** POST /api/auth/send-otp: issues a password-reset code to an email address,
    valid for fifteen minutes, one live record per address. */
module SendOtp {
  import opened Common
  import opened Store

  /** Fifteen minutes, in milliseconds. */
  const OtpLifetime := 15 * 60 * 1000

  datatype Response = EmailRequired | InvalidFormat | AlreadyRegistered | Sent | ServerError
  {
    function StatusCode(): int
    {
      match this
      case EmailRequired => 400
      case InvalidFormat => 400
      case AlreadyRegistered => 400
      case Sent => 200
      case ServerError => 500
    }
  }

  predicate NoSpaceOrAt(t: string)
  {
    forall k :: 0 <= k < |t| ==> !IsJsSpace(t[k]) && t[k] != '@'
  }

  /** The route's pattern: a non-empty part, `@`, then a part with a dot that
      is neither its first nor its last character; no whitespace and no other `@`. */
  predicate LooksLikeEmail(s: string)
  {
    exists i :: 0 <= i < |s| && s[i] == '@' && i >= 1 && NoSpaceOrAt(s[..i]) && DottedDomain(s[i + 1..])
  }

  predicate DottedDomain(d: string)
  {
    NoSpaceOrAt(d) && exists j :: 1 <= j < |d| - 1 && d[j] == '.'
  }

  /** The code table after the upsert: the address's record is replaced (or
      created) with the new code and expiry; every other record stays. */
  function Issue(otps: map<string, OtpRecord>, email: string, code: string, now: int): (t: map<string, OtpRecord>)
    ensures t.Keys == otps.Keys + {email}
    ensures t[email].otp == code && t[email].expiresAt == now + OtpLifetime
    ensures forall e :: e in otps && e != email ==> t[e] == otps[e]
  {
    otps[email := OtpRecord(code, now + OtpLifetime)]
  }

  /** Resending replaces both the code and the expiry of the earlier record. */
  lemma ReissueReplaces(otps: map<string, OtpRecord>, email: string, c1: string, n1: int, c2: string, n2: int)
    ensures Issue(Issue(otps, email, c1, n1), email, c2, n2) == Issue(otps, email, c2, n2)
  {
  }

  /** The addresses that get a code: present and non-empty, of the right
      shape, and not yet registered to an account. */
  ghost predicate Issues(users: map<Id, User>, email: Option<string>)
  {
    email.Some? && email.value != "" && LooksLikeEmail(email.value) && !EmailTaken(users, email.value)
  }

  /** The addresses a password-reset code is evidently meant for: present and
      non-empty, of the right shape, and registered to an account. */
  ghost predicate IssuesIntended(users: map<Id, User>, email: Option<string>)
  {
    email.Some? && email.value != "" && LooksLikeEmail(email.value) && EmailTaken(users, email.value)
  }

  /** `mailOk` is whether the mail transport accepted the message; the record
      is written before sending, so it stays when sending fails. */
  method Post(db: Db, body: Json<Option<string>>, now: int, mailOk: bool) returns (r: Response)
    requires db.Valid()
    modifies db
    ensures db.Valid()
    ensures body.NotJson? ==> r == ServerError && unchanged(db)
    ensures body.Parsed? ==> (var email := body.value;
      email.None? || email.value == "" ==> r == EmailRequired)
    ensures body.Parsed? ==> (var email := body.value;
      (email.Some? && email.value != "" && !LooksLikeEmail(email.value)) ==> r == InvalidFormat)
    ensures body.Parsed? ==> (var email := body.value;
      (email.Some? && email.value != "" && LooksLikeEmail(email.value)
         && EmailTaken(old(db.users), email.value)) ==> r == AlreadyRegistered)
    ensures body.Parsed? ==> (var email := body.value;
      !Issues(old(db.users), email) ==> unchanged(db))
    ensures body.Parsed? ==> (var email := body.value;
      Issues(old(db.users), email) ==>
        && r == (if mailOk then Sent else ServerError)
        && (exists code :: 100000 <= code <= 999999 && db.otps == Issue(old(db.otps), email.value, DecimalString(code), now))
        && |db.otps[email.value].otp| == 6
        && db.users == old(db.users) && db.restaurants == old(db.restaurants) && db.menuItems == old(db.menuItems)
        && db.orders == old(db.orders) && db.nextId == old(db.nextId))
  {
    if body.NotJson? {
      return ServerError;
    }
    var email := body.value;
    if email.None? || email.value == "" {
      return EmailRequired;
    }
    var e := email.value;
    if !LooksLikeEmail(e) {
      return InvalidFormat;
    }
    var registered := exists k :: k in db.users && db.users[k].email == e;
    if registered {
      return AlreadyRegistered;
    }
    var code :| 100000 <= code <= 999999;
    SixDigits(code);
    db.otps := Issue(db.otps, e, DecimalString(code), now);
    r := if mailOk then Sent else ServerError;
  }
}
