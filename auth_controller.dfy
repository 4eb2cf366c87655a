/**
 * The HTTP handlers for sign-up, sign-in and sign-out: validation outcome and
 * service outcome in, one reply out (a written response with its cookie
 * action, or the error handed on to the next error handler).
 */
module AuthController {
  import opened Wrappers
  import opened Http
  import opened AuthService

  /** The name of the session cookie. */
  const SessionCookie: string := "token"

  /** The claims a session token is signed over. */
  datatype Claims = Claims(id: nat, email: Email, role: string)

  /** The token signer: None when signing throws. */
  type Signer = Claims -> Option<string>

  /** A request body after schema validation: the parsed fields, or the formatted field errors. */
  datatype Validation<T> = Passed(data: T) | Failed(details: string)

  /** The fields the sign-in schema yields. */
  datatype Credentials = Credentials(email: Email, password: Password)

  /** What a handler does: write one response, or pass the error to `next`. */
  datatype Reply = Sent(response: Response) | Forwarded(fault: Fault)

  /** An error a handler does not answer itself. */
  datatype Fault = ServiceFault(error: AuthError) | SigningFault | CookieFault

  function ClaimsOf(u: SafeUser): Claims {
    Claims(u.id, u.email, u.role)
  }

  function PublicOf(u: SafeUser): PublicUser {
    PublicUser(u.id, u.name, u.email, u.role)
  }

  function ValidationFailedResponse(details: string): Response {
    Response(400, ErrorDetails("validation failed", details), NoCookie)
  }

  const EmailTakenResponse: Response := Response(409, ErrorOnly("Email already exist"), NoCookie)

  const BadCredentialsResponse: Response := Response(401, ErrorOnly("Invalid email or password"), NoCookie)

  // ---------------------------------------------------------------- signUp

  /**
   * signUp once validation has passed and createUser has returned or thrown;
   * cookieFails says whether the cookie helper throws when it sets the token.
   */
  function SignUpReply(created: Result<SafeUser, AuthError>, sign: Signer, cookieFails: bool): (reply: Reply)
    ensures reply.Sent? && reply.response.status == 201 <==>
      created.Ok? && sign(ClaimsOf(created.value)).Some? && !cookieFails
    ensures reply.Sent? && reply.response.status == 201 ==>
      reply.response == Response(201, UserEnvelope("User registered", PublicOf(created.value)),
                                 SetCookie(SessionCookie, sign(ClaimsOf(created.value)).value))
    ensures reply == Sent(EmailTakenResponse) <==> created == Err(EmailTaken)
    ensures reply.Sent? ==> reply.response.status == 201 || reply == Sent(EmailTakenResponse)
    ensures reply == Forwarded(SigningFault) <==> created.Ok? && sign(ClaimsOf(created.value)).None?
    ensures reply == Forwarded(CookieFault) <==> created.Ok? && sign(ClaimsOf(created.value)).Some? && cookieFails
    ensures reply.Forwarded? && reply.fault.ServiceFault? <==> created.Err? && created.error != EmailTaken
    ensures reply.Forwarded? && reply.fault.ServiceFault? ==> Err(reply.fault.error) == created
  {
    match created
    case Err(e) =>
      if e == EmailTaken then Sent(EmailTakenResponse) else Forwarded(ServiceFault(e))
    case Ok(user) =>
      match sign(ClaimsOf(user))
      case None => Forwarded(SigningFault)
      case Some(token) =>
        if cookieFails then Forwarded(CookieFault)
        else Sent(Response(201, UserEnvelope("User registered", PublicOf(user)), SetCookie(SessionCookie, token)))
  }

  /** signUp: validate, call createUser only on valid input, then reply. */
  method SignUp(store: UserStore, h: Hasher, env: Env, sign: Signer, cookieFails: bool, v: Validation<NewUser>)
    returns (reply: Reply)
    requires store.Valid()
    modifies store
    ensures store.Valid()
    ensures v.Failed? ==>
      && reply == Sent(ValidationFailedResponse(v.details))
      && store.rows == old(store.rows) && store.nextId == old(store.nextId)
    ensures v.Passed? ==>
      var c := CreateUserOn(old(store.Snapshot()), h, v.data, env);
      && store.Snapshot() == c.table
      && reply == SignUpReply(c.result, sign, cookieFails)
  {
    if v.Failed? {
      return Sent(ValidationFailedResponse(v.details));
    }
    var created := store.CreateUser(h, v.data, env);
    reply := SignUpReply(created, sign, cookieFails);
  }

  /** The body of a successful sign-up depends on the user alone: the token travels only in the cookie. */
  lemma SignUpBodyIndependentOfToken(u: SafeUser, sign1: Signer, sign2: Signer)
    requires sign1(ClaimsOf(u)).Some? && sign2(ClaimsOf(u)).Some?
    ensures SignUpReply(Ok(u), sign1, false).response.body == SignUpReply(Ok(u), sign2, false).response.body
    ensures SignUpReply(Ok(u), sign1, false).response.body.user == PublicUser(u.id, u.name, u.email, u.role)
  {
  }

  // ---------------------------------------------------------------- signIn

  /** signIn once validation has passed and authenticateUser has returned or thrown. */
  function SignInReply(authenticated: Result<SafeUser, AuthError>, sign: Signer, cookieFails: bool): (reply: Reply)
    ensures reply.Sent? && reply.response.status == 200 <==>
      authenticated.Ok? && sign(ClaimsOf(authenticated.value)).Some? && !cookieFails
    ensures reply.Sent? && reply.response.status == 200 ==>
      reply.response == Response(200, UserEnvelope("User logged in", PublicOf(authenticated.value)),
                                 SetCookie(SessionCookie, sign(ClaimsOf(authenticated.value)).value))
    ensures reply == Sent(BadCredentialsResponse) <==>
      authenticated == Err(UserNotFound) || authenticated == Err(InvalidCredentials)
    ensures reply.Sent? ==> reply.response.status == 200 || reply == Sent(BadCredentialsResponse)
    ensures reply == Forwarded(SigningFault) <==> authenticated.Ok? && sign(ClaimsOf(authenticated.value)).None?
    ensures reply == Forwarded(CookieFault) <==>
      authenticated.Ok? && sign(ClaimsOf(authenticated.value)).Some? && cookieFails
    ensures reply.Forwarded? && reply.fault.ServiceFault? <==>
      authenticated.Err? && authenticated.error != UserNotFound && authenticated.error != InvalidCredentials
    ensures reply.Forwarded? && reply.fault.ServiceFault? ==> Err(reply.fault.error) == authenticated
  {
    match authenticated
    case Err(e) =>
      if e == UserNotFound || e == InvalidCredentials then Sent(BadCredentialsResponse)
      else Forwarded(ServiceFault(e))
    case Ok(user) =>
      match sign(ClaimsOf(user))
      case None => Forwarded(SigningFault)
      case Some(token) =>
        if cookieFails then Forwarded(CookieFault)
        else Sent(Response(200, UserEnvelope("User logged in", PublicOf(user)), SetCookie(SessionCookie, token)))
  }

  /** signIn: validate, call authenticateUser only on valid input, then reply. */
  function SignIn(rows: seq<User>, h: Hasher, lookupFails: bool, sign: Signer, cookieFails: bool, v: Validation<Credentials>)
    : (reply: Reply)
    ensures reply.Sent? && reply.response.status == 400 <==> v.Failed?
    ensures reply.Sent? && reply.response.cookie.SetCookie? ==>
      && v.Passed? && reply.response.status == 200
      && exists u :: u in rows && u.email == v.data.email && h.compare(v.data.password, u.password) == Some(true)
  {
    match v
    case Failed(details) => Sent(ValidationFailedResponse(details))
    case Passed(c) => SignInReply(AuthenticateUser(rows, h, lookupFails, c.email, c.password), sign, cookieFails)
  }

  /** Invalid input gets 400 whatever the table, the hasher or the store would have done: the service is not consulted. */
  lemma SignInValidationFirst(rows1: seq<User>, h1: Hasher, lookupFails1: bool, rows2: seq<User>, h2: Hasher,
                              lookupFails2: bool, sign: Signer, cookieFails: bool, details: string)
    ensures SignIn(rows1, h1, lookupFails1, sign, cookieFails, Failed(details))
         == SignIn(rows2, h2, lookupFails2, sign, cookieFails, Failed(details))
    ensures SignIn(rows1, h1, lookupFails1, sign, cookieFails, Failed(details)) == Sent(ValidationFailedResponse(details))
  {
  }

  /**
   * An unknown email and a wrong password for a stored email get the same
   * reply, so the reply does not reveal which emails are registered.
   */
  lemma SignInNoEnumeration(t: Table, h: Hasher, sign: Signer, u: User, wrong: Password, unknown: Email, any: Password)
    requires WellFormed(t) && u in t.rows
    requires h.compare(wrong, u.password) == Some(false)
    requires forall row :: row in t.rows ==> row.email != unknown
    ensures SignIn(t.rows, h, false, sign, false, Passed(Credentials(u.email, wrong))) == Sent(BadCredentialsResponse)
    ensures SignIn(t.rows, h, false, sign, false, Passed(Credentials(unknown, any))) == Sent(BadCredentialsResponse)
  {
    AuthenticateStoredUser(t, h, u, wrong);
  }

  // ---------------------------------------------------------------- signOut

  /**
   * signOut: clear the session cookie and confirm; cookieFails says whether
   * the cookie helper throws, in which case the error goes to `next`.
   */
  function SignOut(cookieFails: bool): (reply: Reply)
    ensures reply.Forwarded? <==> cookieFails
    ensures reply.Forwarded? ==> reply.fault == CookieFault
    ensures reply.Sent? ==>
      && reply.response.status == 200
      && reply.response.cookie == ClearCookie(SessionCookie)
      && reply.response.body == MessageOnly("User logged out")
  {
    if cookieFails then Forwarded(CookieFault)
    else Sent(Response(200, MessageOnly("User logged out"), ClearCookie(SessionCookie)))
  }

  /** signOut clears the very cookie that sign-in sets, and writes no user data. */
  lemma SignOutClearsSessionCookie(authenticated: Result<SafeUser, AuthError>, sign: Signer)
    requires SignInReply(authenticated, sign, false).Sent? && SignInReply(authenticated, sign, false).response.status == 200
    ensures SignOut(false).Sent? && SignOut(false).response.status == 200
    ensures SignInReply(authenticated, sign, false).response.cookie.SetCookie?
    ensures SignOut(false).response.cookie == ClearCookie(SignInReply(authenticated, sign, false).response.cookie.name)
    ensures SignOut(false).response.body == MessageOnly("User logged out")
  {
  }

  // ---------------------------------------------------------------- a whole session

  /**
   * Register, sign in with the same credentials, register the same email
   * again: 201 with the given email, then 200 for the same user id, then 409
   * with the table left as the first registration made it.
   */
  lemma RegisterSignInRegisterAgain(t: Table, h: Hasher, sign: Signer, u: NewUser, env1: Env, again: NewUser, env2: Env)
    requires WellFormed(t) && RoundTrip(h)
    requires forall row :: row in t.rows ==> row.email != u.email
    requires env1.fault == NoFault && h.hash(u.password, env1.salt).Some?
    requires again.email == u.email && env2.fault != LookupFails
    requires forall c: Claims :: sign(c).Some?
    ensures var c1 := CreateUserOn(t, h, u, env1);
            var signUp := SignUpReply(c1.result, sign, false);
            var signIn := SignIn(c1.table.rows, h, false, sign, false, Passed(Credentials(u.email, u.password)));
            var c2 := CreateUserOn(c1.table, h, again, env2);
            && signUp.Sent? && signUp.response.status == 201
            && signUp.response.body.user.email == u.email
            && signUp.response.cookie.SetCookie?
            && signIn.Sent? && signIn.response.status == 200
            && signIn.response.body.user.id == signUp.response.body.user.id
            && c2.table == c1.table
            && SignUpReply(c2.result, sign, false) == Sent(EmailTakenResponse)
  {
    var c1 := CreateUserOn(t, h, u, env1);
    CreateThenAuthenticate(t, h, u, env1);
    SecondRegistrationRejected(t, h, u, env1, again, env2);
  }
}
