/** Admin authentication of the affiliate back office: the Bearer header,
    the guard order of `requireAuth`, and `authenticateAdmin`. Token signing
    and checking and password hashing are parameters. */
module AffiliateAuth {
  import opened Wrappers
  import opened Text

  /** The claims a token carries. */
  datatype JwtPayload = JwtPayload(adminId: string, email: string, role: string)

  /** An `admin` row. */
  datatype Admin = Admin(id: string, email: string, name: string, role: string, passwordHash: string, isActive: bool)

  /** The errors the two guards throw, each with its message below. */
  datatype AuthError = AuthenticationRequired | InvalidOrExpiredToken | InvalidAuthentication | InvalidCredentials

  function Message(e: AuthError): string
  {
    match e
    case AuthenticationRequired => "Authentication required"
    case InvalidOrExpiredToken => "Invalid or expired token"
    case InvalidAuthentication => "Invalid authentication"
    case InvalidCredentials => "Invalid credentials"
  }

  const BEARER: string := "Bearer "

  /** `extractTokenFromHeader`: the text after an exact, case-sensitive
      "Bearer " prefix, else nothing. */
  function ExtractTokenFromHeader(authHeader: Option<string>): (r: Option<string>)
    ensures r.Some? <==> authHeader.Some? && StartsWith(authHeader.value, BEARER)
    ensures r.Some? ==> authHeader.value == BEARER + r.value
  {
    if authHeader.None? || authHeader.value == "" || !StartsWith(authHeader.value, BEARER) then None
    else Some(authHeader.value[7..])
  }

  /** Every token comes back out of its own header. */
  lemma ExtractRoundTrip(token: string)
    ensures ExtractTokenFromHeader(Some(BEARER + token)) == Some(token)
  {
    assert (BEARER + token)[..7] == BEARER;
  }

  /** The scheme name is matched case-sensitively: "bearer" and "BEARER"
      headers give no token. */
  lemma SchemeIsCaseSensitive(token: string)
    ensures ExtractTokenFromHeader(Some("bearer " + token)) == None
    ensures ExtractTokenFromHeader(Some("BEARER " + token)) == None
  {
    assert ("bearer " + token)[0] != BEARER[0];
    assert ("BEARER " + token)[1] != BEARER[1];
  }

  /** `requireAuth`: a non-empty token, which must verify, naming an admin
      who exists and is active. `verify` is the token check, `None` where it
      throws; `admins` are the admin rows by id. */
  function RequireAuth(authHeader: Option<string>, verify: string -> Option<JwtPayload>, admins: map<string, Admin>): (r: Result<(Admin, JwtPayload), AuthError>)
  {
    var token := ExtractTokenFromHeader(authHeader);
    if token.None? || token.value == "" then Err(AuthenticationRequired)
    else
      var payload := verify(token.value);
      if payload.None? then Err(InvalidOrExpiredToken)
      else if payload.value.adminId !in admins || !admins[payload.value.adminId].isActive then Err(InvalidAuthentication)
      else Ok((admins[payload.value.adminId], payload.value))
  }

  /** `requireAuth` succeeds exactly for a "Bearer " header with a non-empty
      token that verifies to an existing, active admin, whom it returns; the
      three failures are told apart in that order. */
  lemma RequireAuthOutcome(authHeader: Option<string>, verify: string -> Option<JwtPayload>, admins: map<string, Admin>)
    ensures var r := RequireAuth(authHeader, verify, admins);
      r.Ok? <==>
        exists token :: authHeader == Some(BEARER + token) && token != "" && verify(token).Some? &&
          verify(token).value.adminId in admins && admins[verify(token).value.adminId].isActive
    ensures var r := RequireAuth(authHeader, verify, admins);
      r.Ok? ==>
        r.value.1.adminId in admins && r.value.0 == admins[r.value.1.adminId] && r.value.0.isActive &&
        exists token :: authHeader == Some(BEARER + token) && verify(token) == Some(r.value.1)
    ensures var token := ExtractTokenFromHeader(authHeader);
      (token.None? || token.value == "") <==> RequireAuth(authHeader, verify, admins) == Err(AuthenticationRequired)
    ensures var token := ExtractTokenFromHeader(authHeader);
      token.Some? && token.value != "" && verify(token.value).None? ==>
        RequireAuth(authHeader, verify, admins) == Err(InvalidOrExpiredToken)
  {
    var token := ExtractTokenFromHeader(authHeader);
    if token.Some? {
      forall t | authHeader == Some(BEARER + t)
        ensures t == token.value
      {
        assert BEARER + t == BEARER + token.value;
        assert t == (BEARER + t)[7..];
      }
    } else {
      forall t | authHeader == Some(BEARER + t)
        ensures false
      {
        ExtractRoundTrip(t);
      }
    }
  }

  /** A bare "Bearer " header carries the empty token and is turned away as
      unauthenticated before any token check. */
  lemma BareBearerRejected(verify: string -> Option<JwtPayload>, admins: map<string, Admin>)
    ensures ExtractTokenFromHeader(Some(BEARER)) == Some("")
    ensures RequireAuth(Some(BEARER), verify, admins) == Err(AuthenticationRequired)
  {
    ExtractRoundTrip("");
    assert BEARER + "" == BEARER;
  }

  /** What a successful login returns: the public admin fields and a
      token. */
  datatype AdminView = AdminView(id: string, email: string, name: string, role: string)
  datatype Session = Session(admin: AdminView, token: string)

  /** `authenticateAdmin`: `byEmail` holds the admin rows by email,
      `passwordMatches` the password check and `sign` the token signer. */
  function AuthenticateAdmin(email: string, password: string, byEmail: map<string, Admin>,
                             passwordMatches: (string, string) -> bool, sign: JwtPayload -> string): (r: Result<Session, AuthError>)
  {
    if email !in byEmail || !byEmail[email].isActive then Err(InvalidCredentials)
    else
      var admin := byEmail[email];
      if !passwordMatches(password, admin.passwordHash) then Err(InvalidCredentials)
      else Ok(Session(AdminView(admin.id, admin.email, admin.name, admin.role),
                      sign(JwtPayload(admin.id, admin.email, admin.role))))
  }

  /** A login succeeds exactly for a known, active admin with the right
      password, and returns that admin with a token signed over its id,
      email and role; an unknown email, an inactive admin and a wrong
      password all fail with the same "Invalid credentials". */
  lemma AuthenticateAdminOutcome(email: string, password: string, byEmail: map<string, Admin>,
                                 passwordMatches: (string, string) -> bool, sign: JwtPayload -> string)
    ensures var r := AuthenticateAdmin(email, password, byEmail, passwordMatches, sign);
      (r.Ok? <==> email in byEmail && byEmail[email].isActive && passwordMatches(password, byEmail[email].passwordHash)) &&
      (r.Err? ==> r.error == InvalidCredentials && Message(r.error) == "Invalid credentials") &&
      (r.Ok? ==> var a := byEmail[email];
        r.value.admin == AdminView(a.id, a.email, a.name, a.role) &&
        r.value.token == sign(JwtPayload(a.id, a.email, a.role)))
  {
  }
}
