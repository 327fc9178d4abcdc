/** POST /api/auth/check-username: whether a proposed username is free. */
module CheckUsername {
  import opened Common
  import opened Store

  predicate UsernameChar(c: char)
  {
    IsAsciiAlnum(c) || c == '_' || c == '-'
  }

  /** The characters the second pattern refuses: NUL, backspace, tab, SUB,
      line feed, carriage return, double and single quote, backslash, percent. */
  predicate Dangerous(c: char)
  {
    c == '\0' || c == '\U{8}' || c == '\t' || c == '\U{1A}' || c == '\n' || c == '\r'
    || c == '"' || c == '\'' || c == '\\' || c == '%'
  }

  /** The first pattern: 3 to 20 characters, all letters, digits, `_` or `-`. */
  predicate MatchesPattern(u: string)
  {
    3 <= |u| <= 20 && forall i :: 0 <= i < |u| ==> UsernameChar(u[i])
  }

  predicate HasDangerous(u: string)
  {
    exists i :: 0 <= i < |u| && Dangerous(u[i])
  }

  predicate IsValidUsername(u: string)
  {
    MatchesPattern(u) && !HasDangerous(u)
  }

  /** The second test never refuses what the first accepted. */
  lemma BlacklistRedundant(u: string)
    ensures IsValidUsername(u) <==> MatchesPattern(u)
  {
    if MatchesPattern(u) {
      forall i | 0 <= i < |u| ensures !Dangerous(u[i]) {
        assert UsernameChar(u[i]);
      }
    }
  }

  /** Trimming leaves a valid username as it is. */
  lemma TrimKeepsValid(u: string)
    requires IsValidUsername(u)
    ensures Trim(u) == u
  {
    forall i | 0 <= i < |u| ensures !IsJsSpace(u[i]) {
      assert UsernameChar(u[i]);
    }
    TrimNoSpace(u);
  }

  datatype Response = InvalidFormat | Availability(available: bool) | ServerError
  {
    function StatusCode(): int
    {
      match this
      case InvalidFormat => 400
      case Availability(_) => 200
      case ServerError => 500
    }
  }

  /** The store lookup by the unique username column. */
  function NameTaken(users: map<Id, User>, name: string): (b: bool)
    ensures b == UsernameTaken(users, name)
  {
    exists k :: k in users && users[k].username == name
  }

  /** The route as written. A body that is not JSON throws at once and gets
      500. A missing, empty or invalid username is refused before any lookup.
      Otherwise the lookup runs, and then the call that should wipe the
      trimmed copy throws, because strings have no `fill`: the answer is
      always 500. The parsed username is None when absent. */
  function Respond(users: map<Id, User>, body: Json<Option<string>>): (r: Response)
    ensures r == InvalidFormat <==> body.Parsed? && (body.value.None? || !IsValidUsername(body.value.value))
    ensures r != InvalidFormat ==> r == ServerError
  {
    if body.NotJson? then ServerError
    else
      var username := body.value;
      if username.None? || username.value == "" || !IsValidUsername(username.value) then InvalidFormat
      else
        var taken := NameTaken(users, Trim(username.value));
        ServerError
  }

  /** The route as evidently intended: the availability of the (trimmed) name. */
  function RespondIntended(users: map<Id, User>, body: Json<Option<string>>): (r: Response)
    ensures body.NotJson? ==> r == ServerError
    ensures r == InvalidFormat <==> body.Parsed? && (body.value.None? || !IsValidUsername(body.value.value))
    ensures body.Parsed? && r != InvalidFormat ==> r == Availability(!UsernameTaken(users, body.value.value))
  {
    if body.NotJson? then ServerError
    else
      var username := body.value;
      if username.None? || username.value == "" || !IsValidUsername(username.value) then InvalidFormat
      else
        // Trimming is the identity here (TrimKeepsValid).
        Availability(!NameTaken(users, username.value))
  }

  /** The discrepancy on a concrete request, `{"username": "alice"}` against
      an empty user table: the intended answer is "available", the route
      answers 500. */
  lemma FillThrowsOnValidName()
    ensures IsValidUsername("alice")
    ensures RespondIntended(map[], Parsed(Some("alice"))) == Availability(true)
    ensures Respond(map[], Parsed(Some("alice"))) == ServerError
  {
    assert MatchesPattern("alice") by {
      forall i | 0 <= i < 5 ensures UsernameChar("alice"[i]) {
      }
    }
    BlacklistRedundant("alice");
  }
}
