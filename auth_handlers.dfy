/** The auth handlers as decision chains over their collaborators: password
    hashing and comparison, URL query escaping, token signing and the users
    repository are passed in as functions. Each handler gives the response,
    the session cookie it sets (if any) and the calls it made, in order. */
module AuthHandlers {
  import opened Common
  import opened Models
  import opened Http

  datatype RegisterRequest = RegisterRequest(email: string, password: string, name: string)
  datatype LoginRequest = LoginRequest(email: string, password: string)

  /** The session cookie: HttpOnly, path "/", SameSite None. */
  datatype Cookie = Cookie(name: string, value: string, path: string, httpOnly: bool, sameSite: string)

  function SessionCookie(token: string): Cookie
  {
    Cookie(SessionCookieName, token, "/", true, "None")
  }

  /** What the handlers ask of their collaborators. */
  datatype AuthCall =
    | HashCall(password: string)
    | CreateUserCall(params: CreateUserParams)
    | LookupEmailCall(email: string)
    | CompareCall(hash: string, password: string)
    | TokenCall(claims: Claims)
    | LookupIdCall(id: int)

  datatype AuthDeps = AuthDeps(
    hashPassword: string -> Result<string, string>,
    passwordMatches: (string, string) -> bool,
    queryEscape: string -> string,
    generateToken: Claims -> Result<string, string>,
    createUser: CreateUserParams -> Result<User, string>,
    getUserByEmail: string -> Result<User, string>,
    getUserById: int -> Result<User, string>)

  datatype AuthOutcome = AuthOutcome(response: Response, cookie: Option<Cookie>, calls: seq<AuthCall>)

  function Refuse(status: int, message: string, calls: seq<AuthCall>): AuthOutcome
  {
    AuthOutcome(Response(status, ErrorBody(message)), None, calls)
  }

  const AvatarPrefix := "https://api.dicebear.com/7.x/bottts-neutral/svg?seed="
  const AvatarSuffix := "&backgroundColor=3b82f6,8b5cf6,ec4899,f59e0b,10b981"

  /** The generated avatar of a new user: a fixed URL seeded with the
      query-escaped email. */
  function AvatarUrl(deps: AuthDeps, email: string): (url: string)
    ensures StartsWith(url, AvatarPrefix)
    ensures url[|AvatarPrefix|..] == deps.queryEscape(email) + AvatarSuffix
  {
    var seeded := deps.queryEscape(email) + AvatarSuffix;
    var url := AvatarPrefix + seeded;
    assert url[..|AvatarPrefix|] == AvatarPrefix && url[|AvatarPrefix|..] == seeded;
    url
  }

  /** A creation error reported as a duplicate email: the raw text (not
      lower-cased) mentions "duplicate" or "unique". */
  predicate IsConflict(e: string)
  {
    Contains(e, "duplicate") || Contains(e, "unique")
  }

  /** The claims a token is signed over: the user as stored. */
  function ClaimsOf(u: User): Claims
  {
    Claims(u.email, u.id, u.name, u.image, u.role)
  }

  /** The common tail of `Register` and `Login`: sign a token for the user,
      set it as the session cookie and answer with id, email and name; a
      signing error is 500 with no cookie. */
  function SignIn(u: User, deps: AuthDeps, calls: seq<AuthCall>): (o: AuthOutcome)
    ensures o.calls == calls + [TokenCall(ClaimsOf(u))]
    ensures deps.generateToken(ClaimsOf(u)).Failure? ==>
              o == Refuse(StatusInternalServerError, "Failed to generate token", o.calls)
    ensures deps.generateToken(ClaimsOf(u)).Success? ==>
              && o.response == Response(StatusOK, AuthBody(u.id, u.email, u.name))
              && o.cookie == Some(SessionCookie(deps.generateToken(ClaimsOf(u)).value))
  {
    var signed := calls + [TokenCall(ClaimsOf(u))];
    match deps.generateToken(ClaimsOf(u))
    case Failure(_) => Refuse(StatusInternalServerError, "Failed to generate token", signed)
    case Success(token) =>
      AuthOutcome(Response(StatusOK, AuthBody(u.id, u.email, u.name)), Some(SessionCookie(token)), signed)
  }

  /** The parameters `Register` gives the repository: the request's email
      and name, the password's hash, and the generated avatar. */
  function NewUserParams(req: RegisterRequest, hash: string, deps: AuthDeps): CreateUserParams
  {
    CreateUserParams(req.email, hash, req.name, AvatarUrl(deps, req.email))
  }

  /** `Register`: 400 for an unreadable body; 500 when hashing fails; a
      creation error is 409 when it names a duplicate or unique violation and
      500 with the error otherwise; then the shared sign-in tail. The
      repository never receives the plain password, only its hash. */
  function Register(body: Option<RegisterRequest>, deps: AuthDeps): (o: AuthOutcome)
    ensures body.None? ==> o == Refuse(StatusBadRequest, "Invalid request", [])
    ensures body.Some? && deps.hashPassword(body.value.password).Failure? ==>
              o == Refuse(StatusInternalServerError, "Failed to hash password", [HashCall(body.value.password)])
    ensures body.Some? && deps.hashPassword(body.value.password).Success? ==>
              var params := NewUserParams(body.value, deps.hashPassword(body.value.password).value, deps);
              var created := deps.createUser(params);
              var before := [HashCall(body.value.password), CreateUserCall(params)];
              && (created.Failure? && IsConflict(created.error) ==>
                    o == Refuse(StatusConflict, "Email already registered", before))
              && (created.Failure? && !IsConflict(created.error) ==>
                    o == Refuse(StatusInternalServerError, "Error creating user: " + created.error, before))
              && (created.Success? ==> o == SignIn(created.value, deps, before))
    ensures forall k :: 0 <= k < |o.calls| && o.calls[k].CreateUserCall? ==>
              body.Some? && deps.hashPassword(body.value.password).Success?
              && o.calls[k].params.password == deps.hashPassword(body.value.password).value
    ensures o.cookie.Some? ==> o.response.status == StatusOK
  {
    match body
    case None => Refuse(StatusBadRequest, "Invalid request", [])
    case Some(req) =>
      match deps.hashPassword(req.password)
      case Failure(_) => Refuse(StatusInternalServerError, "Failed to hash password", [HashCall(req.password)])
      case Success(hash) =>
        var params := NewUserParams(req, hash, deps);
        var before := [HashCall(req.password), CreateUserCall(params)];
        match deps.createUser(params)
        case Failure(e) =>
          if IsConflict(e) then Refuse(StatusConflict, "Email already registered", before)
          else Refuse(StatusInternalServerError, "Error creating user: " + e, before)
        case Success(user) => SignIn(user, deps, before)
  }

  /** `Login`: 400 for an unreadable body; an unknown email and a wrong
      password both give 401 "Invalid credentials"; then the shared sign-in
      tail for the user found. */
  function Login(body: Option<LoginRequest>, deps: AuthDeps): (o: AuthOutcome)
    ensures body.None? ==> o == Refuse(StatusBadRequest, "Invalid request", [])
    ensures body.Some? && deps.getUserByEmail(body.value.email).Failure? ==>
              o == Refuse(StatusUnauthorized, "Invalid credentials", [LookupEmailCall(body.value.email)])
    ensures body.Some? && deps.getUserByEmail(body.value.email).Success? ==>
              var u := deps.getUserByEmail(body.value.email).value;
              var before := [LookupEmailCall(body.value.email), CompareCall(u.password, body.value.password)];
              && (!deps.passwordMatches(u.password, body.value.password) ==>
                    o == Refuse(StatusUnauthorized, "Invalid credentials", before))
              && (deps.passwordMatches(u.password, body.value.password) ==> o == SignIn(u, deps, before))
    ensures o.cookie.Some? ==>
              && body.Some? && deps.getUserByEmail(body.value.email).Success?
              && deps.passwordMatches(deps.getUserByEmail(body.value.email).value.password, body.value.password)
  {
    match body
    case None => Refuse(StatusBadRequest, "Invalid request", [])
    case Some(req) =>
      match deps.getUserByEmail(req.email)
      case Failure(_) => Refuse(StatusUnauthorized, "Invalid credentials", [LookupEmailCall(req.email)])
      case Success(user) =>
        var before := [LookupEmailCall(req.email), CompareCall(user.password, req.password)];
        if !deps.passwordMatches(user.password, req.password) then
          Refuse(StatusUnauthorized, "Invalid credentials", before)
        else SignIn(user, deps, before)
  }

  /** A client cannot tell an unknown email from a wrong password: both
      receive the same response and no cookie. */
  lemma LoginFailuresIndistinguishable(unknown: LoginRequest, wrong: LoginRequest, deps: AuthDeps)
    requires deps.getUserByEmail(unknown.email).Failure?
    requires deps.getUserByEmail(wrong.email).Success?
    requires !deps.passwordMatches(deps.getUserByEmail(wrong.email).value.password, wrong.password)
    ensures Login(Some(unknown), deps).response == Login(Some(wrong), deps).response
    ensures Login(Some(unknown), deps).cookie == Login(Some(wrong), deps).cookie == None
  {
  }

  /** `GetMe`: 401 "Invalid user claims" without claims; otherwise the
      user the claims' id names, re-read from the repository (so the reply
      shows the stored fields, not the token's), or 500. The reply holds no
      password. */
  function GetMe(claims: Option<Claims>, deps: AuthDeps): (o: AuthOutcome)
    ensures o.cookie.None?
    ensures claims.None? ==> o == Refuse(StatusUnauthorized, "Invalid user claims", [])
    ensures claims.Some? ==> o.calls == [LookupIdCall(claims.value.userId)]
    ensures claims.Some? && deps.getUserById(claims.value.userId).Failure? ==>
              o.response == Response(StatusInternalServerError, ErrorBody("Failed to get user"))
    ensures claims.Some? && deps.getUserById(claims.value.userId).Success? ==>
              var u := deps.getUserById(claims.value.userId).value;
              o.response == Response(StatusOK, MeBody(u.id, u.email, u.name, u.image, u.role))
  {
    match claims
    case None => Refuse(StatusUnauthorized, "Invalid user claims", [])
    case Some(c) =>
      match deps.getUserById(c.userId)
      case Failure(_) => Refuse(StatusInternalServerError, "Failed to get user", [LookupIdCall(c.userId)])
      case Success(u) =>
        AuthOutcome(Response(StatusOK, MeBody(u.id, u.email, u.name, u.image, u.role)), None, [LookupIdCall(c.userId)])
  }
}
