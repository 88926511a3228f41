/**
 * The admin gate: the `auth` handler that checks the `Authorization` header
 * against the shared secret, the `login` endpoint, and the two client-side
 * steps around them (the trimmed password the login page submits and the
 * Bearer header the client attaches).
 */
module Auth {
  import opened Wrappers
  import opened ApiErrors
  import opened JsText

  /** The identity every authenticated request runs as. */
  datatype AuthData = AuthData(userID: string, role: string)

  const Admin: AuthData := AuthData("admin", "admin")
  const MissingToken: ApiError := Unauthenticated("missing token")
  const InvalidToken: ApiError := Unauthenticated("invalid token")

  const BearerPrefix: string := "Bearer "

  /** `authorization.replace("Bearer ", "")`: the first occurrence, wherever it is, is removed. */
  function StripBearer(header: string): string {
    ReplaceFirst(header, BearerPrefix, "")
  }

  /**
   * The `auth` handler: no header, or nothing left after stripping, is a
   * missing token; anything but the secret is an invalid one.
   */
  function Authenticate(authorization: Option<string>, secret: string): (r: Result<AuthData, ApiError>)
    ensures authorization.None? ==> r == Err(MissingToken)
    ensures authorization.Some? && StripBearer(authorization.value) == "" ==> r == Err(MissingToken)
    ensures r.Ok? <==> authorization.Some? && StripBearer(authorization.value) != ""
                       && StripBearer(authorization.value) == secret
    ensures r.Ok? ==> r.value == Admin
    ensures r.Err? ==> r.error == MissingToken || r.error == InvalidToken
  {
    match authorization
    case None => Err(MissingToken)
    case Some(h) =>
      var token := StripBearer(h);
      if token == "" then Err(MissingToken)
      else if token != secret then Err(InvalidToken)
      else Ok(Admin)
  }

  /** A header that starts with the prefix strips to exactly what follows it. */
  lemma StripBearerPrefix(t: string)
    ensures StripBearer(BearerPrefix + t) == t
  {
    var h := BearerPrefix + t;
    assert OccursAt(h, BearerPrefix, 0) by { assert h[..|BearerPrefix|] == BearerPrefix; }
    var i := IndexOf(h, BearerPrefix);
    assert i == Some(0);
    assert h[|BearerPrefix|..] == t;
  }

  /**
   * Only the first occurrence is removed: a doubled prefix leaves one
   * prefix in the token, which then never equals the secret it wraps.
   */
  lemma DoubledPrefixRejected(secret: string)
    ensures Authenticate(Some(BearerPrefix + (BearerPrefix + secret)), secret) == Err(InvalidToken)
  {
    StripBearerPrefix(BearerPrefix + secret);
  }

  /** A header without the prefix is compared verbatim. */
  lemma UnprefixedHeaderVerbatim(h: string, secret: string)
    requires IndexOf(h, BearerPrefix).None?
    ensures StripBearer(h) == h
    ensures Authenticate(Some(h), secret)
         == if h == "" then Err(MissingToken) else if h == secret then Ok(Admin) else Err(InvalidToken)
  {
  }

  /** The client's header: none for an absent or empty token, else `Bearer <token>`. */
  function BearerHeader(token: Option<string>): (r: Option<string>)
    ensures r.None? <==> token.None? || token.value == ""
    ensures r.Some? ==> r.value == BearerPrefix + token.value
  {
    if token.Some? && token.value != "" then Some(BearerPrefix + token.value) else None
  }

  /**
   * Round trip: whatever token the client holds, the gate sees exactly
   * that token, so it admits the request exactly when the token is the
   * secret (and non-empty).
   */
  lemma BearerRoundTrip(token: Option<string>, secret: string)
    ensures Authenticate(BearerHeader(token), secret)
         == if token.None? || token.value == "" then Err(MissingToken)
            else if token.value == secret then Ok(Admin)
            else Err(InvalidToken)
  {
    if token.Some? && token.value != "" {
      StripBearerPrefix(token.value);
    }
  }

  datatype LoginResponse = LoginResponse(token: string, message: string)

  /** `login`: a wrong password throws; the right one is echoed back as the token. */
  function Login(password: string, secret: string): (r: Result<LoginResponse, ApiError>)
    ensures r.Ok? <==> password == secret
    ensures r.Ok? ==> r.value == LoginResponse(password, "Login successful")
    ensures r.Err? ==> r.error == Internal("Invalid password")
  {
    if password != secret then Err(Internal("Invalid password"))
    else Ok(LoginResponse(password, "Login successful"))
  }

  /**
   * The token a successful login hands out passes the gate, provided the
   * secret itself is non-empty (an empty token is never sent).
   */
  lemma LoginTokenAuthenticates(password: string, secret: string)
    requires Login(password, secret).Ok?
    ensures Authenticate(BearerHeader(Some(Login(password, secret).value.token)), secret)
         == if secret == "" then Err(MissingToken) else Ok(Admin)
  {
    BearerRoundTrip(Some(password), secret);
  }

  /**
   * The login page's submit: the trimmed password, or nothing at all when
   * the field is empty or whitespace.
   */
  function SubmittedPassword(input: string): (r: Option<string>)
    ensures r.None? <==> forall i :: 0 <= i < |input| ==> IsWhitespace(input[i])
    ensures r.Some? ==> r.value != "" && !IsWhitespace(r.value[0]) && !IsWhitespace(r.value[|r.value| - 1])
    ensures r.Some? ==> r.value == Trim(input)
  {
    var t := Trim(input);
    if t != "" then Some(t) else None
  }
}
