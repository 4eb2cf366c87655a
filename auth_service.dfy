/**
 * The credential service: registration (check-then-insert on the users
 * table) and authentication (lookup, password check, safe projection).
 * Every failure leaves the service as one of a closed set of error kinds.
 */
module AuthService {
  import opened Wrappers

  type Email = string
  type Password = string
  type Digest = string
  type Salt = nat
  type Timestamp = nat

  /** The role column's default, used when the caller gives no role. */
  const DefaultRole: string := "user"

  /** A row of the users table. */
  datatype User = User(
    id: nat,
    name: string,
    email: Email,
    password: Digest,
    role: string,
    createdAt: Timestamp,
    updatedAt: Timestamp)

  /** A user without the password column: what both service calls return. */
  datatype SafeUser = SafeUser(
    id: nat,
    name: string,
    email: Email,
    role: string,
    createdAt: Timestamp,
    updatedAt: Timestamp)

  /** Drop the password hash and keep every other column. */
  function Strip(u: User): SafeUser {
    SafeUser(u.id, u.name, u.email, u.role, u.createdAt, u.updatedAt)
  }

  /**
   * The errors the service raises, one kind per message string; StoreFailed
   * stands for whatever the database driver throws.
   */
  datatype AuthError =
    | HashFailed
    | CompareFailed
    | EmailTaken
    | CreateFailed
    | UserNotFound
    | InvalidCredentials
    | AuthenticateFailed
    | StoreFailed

  /** The message each kind is thrown with. */
  function Message(e: AuthError): string
    requires !e.StoreFailed?
  {
    match e
    case HashFailed => "Failed to hash password"
    case CompareFailed => "Failed to compare password"
    case EmailTaken => "User with this email already exists"
    case CreateFailed => "Failed to create user"
    case UserNotFound => "User not found"
    case InvalidCredentials => "Invalid credentials"
    case AuthenticateFailed => "Failed to authenticate user"
  }

  /** Distinct kinds carry distinct messages, so matching on the kind decides exactly what comparing messages decides. */
  lemma MessageIdentifiesKind(a: AuthError, b: AuthError)
    requires !a.StoreFailed? && !b.StoreFailed?
    ensures Message(a) == Message(b) <==> a == b
  {
  }

  // ---------------------------------------------------------------- bcrypt

  /**
   * The password hashing primitive as the service sees it: `hash` may fault
   * (None) and draws a random salt; `compare` may fault on a malformed digest.
   */
  datatype Hasher = Hasher(
    hash: (Password, Salt) -> Option<Digest>,
    compare: (Password, Digest) -> Option<bool>)

  /** A digest the primitive produced for a password verifies against that password. */
  ghost predicate RoundTrip(h: Hasher) {
    forall p: Password, s: Salt :: h.hash(p, s).Some? ==> h.compare(p, h.hash(p, s).value) == Some(true)
  }

  /** hashPassword: the primitive's fault becomes HashFailed. */
  function HashPassword(h: Hasher, password: Password, salt: Salt): (r: Result<Digest, AuthError>)
    ensures r.Ok? <==> h.hash(password, salt).Some?
    ensures r.Ok? ==> Some(r.value) == h.hash(password, salt)
    ensures r.Err? ==> r.error == HashFailed
  {
    match h.hash(password, salt)
    case Some(digest) => Ok(digest)
    case None => Err(HashFailed)
  }

  /** comparePassword: a mismatch is Ok(false), only a fault becomes CompareFailed. */
  function ComparePassword(h: Hasher, password: Password, digest: Digest): (r: Result<bool, AuthError>)
    ensures r.Ok? <==> h.compare(password, digest).Some?
    ensures r.Ok? ==> Some(r.value) == h.compare(password, digest)
    ensures r.Err? ==> r.error == CompareFailed
  {
    match h.compare(password, digest)
    case Some(valid) => Ok(valid)
    case None => Err(CompareFailed)
  }

  /** Whatever hashPassword stores, comparePassword accepts for the same password. */
  lemma HashThenCompare(h: Hasher, password: Password, salt: Salt)
    requires RoundTrip(h)
    requires HashPassword(h, password, salt).Ok?
    ensures ComparePassword(h, password, HashPassword(h, password, salt).value) == Ok(true)
  {
  }

  // ---------------------------------------------------------------- the users table

  /** The table's contents and the next value of its serial id. */
  datatype Table = Table(rows: seq<User>, nextId: nat)

  ghost predicate EmailsDistinct(rows: seq<User>) {
    forall i, j :: 0 <= i < j < |rows| ==> rows[i].email != rows[j].email
  }

  /** The table invariant: emails and ids are unique, and every id was issued before nextId. */
  ghost predicate WellFormed(t: Table) {
    && EmailsDistinct(t.rows)
    && (forall i, j :: 0 <= i < j < |t.rows| ==> t.rows[i].id != t.rows[j].id)
    && (forall i :: 0 <= i < |t.rows| ==> t.rows[i].id < t.nextId)
  }

  /** `select ... where email = ? limit 1`: the first row with that email, if any. */
  function FindByEmail(rows: seq<User>, email: Email): (r: Option<User>)
    ensures r.Some? ==> r.value in rows && r.value.email == email
    ensures r.None? <==> forall u :: u in rows ==> u.email != email
  {
    if rows == [] then None
    else if rows[0].email == email then Some(rows[0])
    else FindByEmail(rows[1..], email)
  }

  /** With unique emails the lookup finds the one row holding the email. */
  lemma FindTheRow(rows: seq<User>, u: User)
    requires EmailsDistinct(rows)
    requires u in rows
    ensures FindByEmail(rows, u.email) == Some(u)
  {
  }

  /** Appending a row never changes an earlier match; it is found only if nothing earlier matched. */
  lemma {:induction false} FindAfterAppend(rows: seq<User>, row: User, email: Email)
    ensures FindByEmail(rows + [row], email) ==
      if FindByEmail(rows, email).Some? then FindByEmail(rows, email)
      else if row.email == email then Some(row)
      else None
  {
    if rows == [] {
      assert rows + [row] == [row];
    } else {
      assert (rows + [row])[1..] == rows[1..] + [row];
      FindAfterAppend(rows[1..], row, email);
    }
  }

  // ---------------------------------------------------------------- createUser

  /** Which of createUser's two database calls fails, if one does: the driver throws an error of its own. */
  datatype StoreFault = NoFault | LookupFails | InsertFails

  /** What one call gets from outside the service: bcrypt's random salt, the database clock, a database failure. */
  datatype Env = Env(salt: Salt, now: Timestamp, fault: StoreFault)

  /** The validated sign-up fields passed to createUser; an absent role is left to the column default. */
  datatype NewUser = NewUser(name: string, email: Email, password: Password, role: Option<string>)

  /** The try block of createUser: the inserted row, or the first error thrown. */
  function CreateUserAttempt(t: Table, h: Hasher, u: NewUser, env: Env): Result<User, AuthError> {
    if env.fault == LookupFails then Err(StoreFailed)
    else if FindByEmail(t.rows, u.email).Some? then Err(EmailTaken)
    else
      match HashPassword(h, u.password, env.salt)
      case Err(e) => Err(e)
      case Ok(digest) =>
        if env.fault == InsertFails then Err(StoreFailed)
        else Ok(User(t.nextId, u.name, u.email, digest, u.role.GetOr(DefaultRole), env.now, env.now))
  }

  /** The catch block of createUser: only the duplicate-email error keeps its message. */
  function CreateUserRewrap(e: AuthError): AuthError {
    if e == EmailTaken then e else CreateFailed
  }

  /** What createUser returns, and the table it leaves. */
  datatype Creation = Creation(result: Result<SafeUser, AuthError>, table: Table)

  /** createUser run against table t. */
  function CreateUserOn(t: Table, h: Hasher, u: NewUser, env: Env): (c: Creation)
    // zero inserts on every rejection path
    ensures c.result.Err? ==> c.table == t
    // the only messages that leave the service
    ensures c.result.Err? ==> c.result.error == EmailTaken || c.result.error == CreateFailed
    ensures c.result == Err(EmailTaken) <==>
      env.fault != LookupFails && exists row :: row in t.rows && row.email == u.email
    ensures c.result.Ok? <==>
      && env.fault == NoFault
      && (forall row :: row in t.rows ==> row.email != u.email)
      && h.hash(u.password, env.salt).Some?
    // exactly one insert on success, of the given fields with the hashed password
    ensures c.result.Ok? ==>
      && |c.table.rows| == |t.rows| + 1
      && c.table.rows[..|t.rows|] == t.rows
      && c.table.nextId == t.nextId + 1
      && var row := c.table.rows[|t.rows|];
      && row.id == t.nextId
      && row.name == u.name
      && row.email == u.email
      && Some(row.password) == h.hash(u.password, env.salt)
      && row.role == u.role.GetOr(DefaultRole)
      && row.createdAt == row.updatedAt == env.now
      && c.result.value == Strip(row)
  {
    match CreateUserAttempt(t, h, u, env)
    case Ok(row) =>
      assert (t.rows + [row])[..|t.rows|] == t.rows;
      Creation(Ok(Strip(row)), Table(t.rows + [row], t.nextId + 1))
    case Err(e) => Creation(Err(CreateUserRewrap(e)), t)
  }

  /** A hashing fault or a database fault after the duplicate check surfaces as CreateFailed, and nothing is inserted. */
  lemma CreateFaultIsCreateFailed(t: Table, h: Hasher, u: NewUser, env: Env)
    requires env.fault == LookupFails || FindByEmail(t.rows, u.email).None?
    requires env.fault != NoFault || h.hash(u.password, env.salt).None?
    ensures CreateUserOn(t, h, u, env) == Creation(Err(CreateFailed), t)
  {
  }

  /** createUser keeps the table invariant. */
  lemma CreateUserKeepsWellFormed(t: Table, h: Hasher, u: NewUser, env: Env)
    requires WellFormed(t)
    ensures WellFormed(CreateUserOn(t, h, u, env).table)
  {
    var c := CreateUserOn(t, h, u, env);
    if c.result.Ok? {
      var rows := c.table.rows;
      assert rows == t.rows + [rows[|t.rows|]];
      forall i | 0 <= i < |t.rows|
        ensures rows[i].email != u.email
      {
        assert t.rows[i] in t.rows;
      }
    }
  }

  /** A second registration with an email already stored fails with EmailTaken and inserts nothing. */
  lemma SecondRegistrationRejected(t: Table, h: Hasher, u1: NewUser, env1: Env, u2: NewUser, env2: Env)
    requires CreateUserOn(t, h, u1, env1).result.Ok?
    requires u2.email == u1.email && env2.fault != LookupFails
    ensures var t1 := CreateUserOn(t, h, u1, env1).table;
            CreateUserOn(t1, h, u2, env2) == Creation(Err(EmailTaken), t1)
  {
    var t1 := CreateUserOn(t, h, u1, env1).table;
    assert t1.rows[|t.rows|] in t1.rows;
  }

  /** One sign-up request as the service receives it. */
  datatype Registration = Registration(user: NewUser, env: Env)

  /** The table after a sequence of createUser calls, run one after another. */
  function CreateAll(t: Table, h: Hasher, regs: seq<Registration>): Table
    decreases |regs|
  {
    if regs == [] then t
    else CreateAll(CreateUserOn(t, h, regs[0].user, regs[0].env).table, h, regs[1..])
  }

  /**
   * Run sequentially, createUser never stores two rows with one email (nor two
   * with one id), and never changes or removes a row already stored.
   */
  lemma {:induction false} CreateAllKeepsInvariant(t: Table, h: Hasher, regs: seq<Registration>)
    requires WellFormed(t)
    ensures WellFormed(CreateAll(t, h, regs))
    ensures t.rows <= CreateAll(t, h, regs).rows
    decreases |regs|
  {
    if regs != [] {
      var c := CreateUserOn(t, h, regs[0].user, regs[0].env);
      CreateUserKeepsWellFormed(t, h, regs[0].user, regs[0].env);
      CreateAllKeepsInvariant(c.table, h, regs[1..]);
    }
  }

  // ---------------------------------------------------------------- authenticateUser

  /**
   * The try block of authenticateUser: the matching row, or the first error
   * thrown. Its only database call is the select, so a read takes a single
   * flag saying whether that select fails.
   */
  function AuthenticateAttempt(rows: seq<User>, h: Hasher, lookupFails: bool, email: Email, password: Password): Result<User, AuthError> {
    if lookupFails then Err(StoreFailed)
    else
      match FindByEmail(rows, email)
      case None => Err(UserNotFound)
      case Some(user) =>
        match ComparePassword(h, password, user.password)
        case Err(e) => Err(e)
        case Ok(valid) => if valid then Ok(user) else Err(InvalidCredentials)
  }

  /** The catch block of authenticateUser: not-found and bad-password keep their messages. */
  function AuthenticateRewrap(e: AuthError): AuthError {
    if e == UserNotFound || e == InvalidCredentials then e else AuthenticateFailed
  }

  /** authenticateUser: a read of the rows, so it never changes the table. */
  function AuthenticateUser(rows: seq<User>, h: Hasher, lookupFails: bool, email: Email, password: Password): (r: Result<SafeUser, AuthError>)
    ensures r.Err? ==> r.error in {UserNotFound, InvalidCredentials, AuthenticateFailed}
    // a failed select is rethrown as the generic message
    ensures lookupFails ==> r == Err(AuthenticateFailed)
    ensures r == Err(UserNotFound) <==> !lookupFails && forall u :: u in rows ==> u.email != email
    // the row the lookup found decides the rest
    ensures r == Err(InvalidCredentials) <==>
      !lookupFails && FindByEmail(rows, email).Some? && h.compare(password, FindByEmail(rows, email).value.password) == Some(false)
    ensures r == Err(AuthenticateFailed) <==>
      lookupFails || (FindByEmail(rows, email).Some? && h.compare(password, FindByEmail(rows, email).value.password).None?)
    ensures r.Ok? ==>
      exists u :: u in rows && u.email == email && h.compare(password, u.password) == Some(true) && r.value == Strip(u)
  {
    match AuthenticateAttempt(rows, h, lookupFails, email, password)
    case Ok(user) => Ok(Strip(user))
    case Err(e) => Err(AuthenticateRewrap(e))
  }

  /**
   * For the stored row holding the email: the right password yields that row
   * without its password; a mismatch is InvalidCredentials; a fault of the
   * comparison (CompareFailed) is rewrapped as AuthenticateFailed.
   */
  lemma AuthenticateStoredUser(t: Table, h: Hasher, u: User, password: Password)
    requires WellFormed(t) && u in t.rows
    ensures h.compare(password, u.password) == Some(true) ==>
      AuthenticateUser(t.rows, h, false, u.email, password) == Ok(Strip(u))
    ensures h.compare(password, u.password) == Some(false) ==>
      AuthenticateUser(t.rows, h, false, u.email, password) == Err(InvalidCredentials)
    ensures h.compare(password, u.password) == None ==>
      AuthenticateUser(t.rows, h, false, u.email, password) == Err(AuthenticateFailed)
  {
    FindTheRow(t.rows, u);
  }

  /** Whoever createUser just registered can sign in with the same password and gets back what createUser returned. */
  lemma CreateThenAuthenticate(t: Table, h: Hasher, u: NewUser, env: Env)
    requires RoundTrip(h)
    requires CreateUserOn(t, h, u, env).result.Ok?
    ensures var c := CreateUserOn(t, h, u, env);
            AuthenticateUser(c.table.rows, h, false, u.email, u.password) == c.result
  {
    var c := CreateUserOn(t, h, u, env);
    var row := c.table.rows[|t.rows|];
    assert c.table.rows == t.rows + [row];
    FindAfterAppend(t.rows, row, u.email);
  }

  // ---------------------------------------------------------------- the stateful store

  /** The users table as the service updates it in place. */
  class UserStore {
    var rows: seq<User>
    var nextId: nat

    function Snapshot(): Table
      reads this
    {
      Table(rows, nextId)
    }

    ghost predicate Valid()
      reads this
    {
      WellFormed(Snapshot())
    }

    /** An empty table whose serial id starts at 1. */
    constructor ()
      ensures Valid()
      ensures rows == [] && nextId == 1
    {
      rows := [];
      nextId := 1;
    }

    /** createUser: look the email up, hash the password, insert one row. */
    method CreateUser(h: Hasher, u: NewUser, env: Env) returns (r: Result<SafeUser, AuthError>)
      requires Valid()
      modifies this
      ensures Valid()
      ensures Creation(r, Snapshot()) == CreateUserOn(old(Snapshot()), h, u, env)
      ensures r.Err? ==> rows == old(rows) && nextId == old(nextId)
      ensures r.Ok? ==> old(rows) < rows && |rows| == |old(rows)| + 1 && rows[|old(rows)|].email == u.email
    {
      ghost var before := Snapshot();
      CreateUserKeepsWellFormed(before, h, u, env);
      var failure: AuthError;
      if env.fault == LookupFails {
        failure := StoreFailed;
      } else if FindByEmail(rows, u.email).Some? {
        failure := EmailTaken;
      } else {
        var hashed := HashPassword(h, u.password, env.salt);
        if hashed.Err? {
          failure := hashed.error;
        } else if env.fault == InsertFails {
          failure := StoreFailed;
        } else {
          var row := User(nextId, u.name, u.email, hashed.value, u.role.GetOr(DefaultRole), env.now, env.now);
          rows := rows + [row];
          nextId := nextId + 1;
          r := Ok(Strip(row));
          return;
        }
      }
      r := Err(CreateUserRewrap(failure));
    }
  }
}
