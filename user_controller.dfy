/**
 * Sign-up, log-in, log-out and the session check. The credential store is an
 * in-memory sequence of users held by `UserStore`. Email and password-strength
 * checks, password hashing and comparison, and token signing are oracles
 * given as parameters.
 */
module UserController {
  import opened Options
  import Sequences
  import opened TaskModel
  import Strings
  import AuthMiddleware

  /** The fields a sign-up or log-in reply discloses: never the password. */
  datatype PublicUser = PublicUser(id: Id, username: string, email: string)

  /** The public projection of a user record. */
  function Public(u: User): (p: PublicUser)
    ensures p.id == u.id && p.username == u.username && p.email == u.email
  {
    PublicUser(u.id, u.username, u.email)
  }

  /** What a session token carries, and how long it lives (seconds). */
  datatype Claims = Claims(userId: Id, username: string, email: string, expiresIn: int)

  /** A `Set-Cookie` instruction: `value` is the text the browser stores, `maxAge` None makes a session cookie. */
  datatype Cookie = Cookie(name: string, value: Option<string>, maxAge: Option<int>)

  /** A token lives two hours (7200 seconds). */
  const TokenLifetime: int := 2 * 60 * 60
  /** The token cookie lives a week, in milliseconds (604800000). */
  const CookieMaxAge: int := 7 * 24 * 60 * 60 * 1000

  datatype Reply =
    | SignedIn(status: int, message: string, user: PublicUser, cookie: Cookie)
    | Rejected(status: int, message: string)

  const AllRequired := "All fields are required!"
  const InvalidEmail := "Invalid email format!"
  const WeakPassword := "Weak password!"
  const ShortUsername := "username must be greaterthen 3 "
  const ShortPassword := "Password must be at least 6 characters"
  const AlreadyExists := "User already exists"
  const LoginRequired := "Email and Password is required !"
  const BadCredentials := "Invalid email or password !"

  /**
   * An exception thrown by a call the controller awaits: the user lookup,
   * bcrypt (hashing on sign-up, comparison on log-in), inserting the user,
   * or signing the token. Each carries the error's message.
   */
  datatype Fault =
    | NoFault
    | LookupFails(message: string)
    | CryptoFails(message: string)
    | CreateFails(message: string)
    | SignFails(message: string)

  /** The sign-up and log-in bodies; `None` is a missing key. */
  datatype SignupForm = SignupForm(username: Option<string>, email: Option<string>, password: Option<string>)
  datatype LoginForm = LoginForm(email: Option<string>, password: Option<string>)

  function Text(v: Option<string>): string {
    v.GetOr("")
  }

  /**
   * The first sign-up check that fails, in the order of the chain: a missing
   * field, the email format, password strength, username length, password
   * length, an email already registered. Lengths are JavaScript string
   * lengths.
   */
  function SignupRejection(f: SignupForm, isEmail: string -> bool, isStrong: string -> bool, taken: bool)
    : (r: Option<string>)
    ensures r == Some(AllRequired) <==> !(Truthy(f.username) && Truthy(f.email) && Truthy(f.password))
    ensures r == Some(InvalidEmail) <==>
      Truthy(f.username) && Truthy(f.email) && Truthy(f.password) && !isEmail(Text(f.email))
    ensures r == Some(WeakPassword) <==>
      Truthy(f.username) && Truthy(f.email) && Truthy(f.password) && isEmail(Text(f.email))
      && !isStrong(Text(f.password))
    ensures r == Some(ShortUsername) <==>
      Truthy(f.username) && Truthy(f.email) && Truthy(f.password) && isEmail(Text(f.email))
      && isStrong(Text(f.password)) && Strings.Utf16Length(Text(f.username)) < 3
    ensures r == Some(ShortPassword) <==>
      Truthy(f.username) && Truthy(f.email) && Truthy(f.password) && isEmail(Text(f.email))
      && isStrong(Text(f.password)) && Strings.Utf16Length(Text(f.username)) >= 3
      && Strings.Utf16Length(Text(f.password)) < 6
    ensures r == Some(AlreadyExists) <==>
      Truthy(f.username) && Truthy(f.email) && Truthy(f.password) && isEmail(Text(f.email))
      && isStrong(Text(f.password)) && Strings.Utf16Length(Text(f.username)) >= 3
      && Strings.Utf16Length(Text(f.password)) >= 6 && taken
    ensures r.None? <==> SignupAcceptable(f, isEmail, isStrong) && !taken
  {
    if !(Truthy(f.username) && Truthy(f.email) && Truthy(f.password)) then Some(AllRequired)
    else if !isEmail(f.email.value) then Some(InvalidEmail)
    else if !isStrong(f.password.value) then Some(WeakPassword)
    else if Strings.Utf16Length(f.username.value) < 3 then Some(ShortUsername)
    else if Strings.Utf16Length(f.password.value) < 6 then Some(ShortPassword)
    else if taken then Some(AlreadyExists)
    else None
  }

  /** Every field check of sign-up passes (the duplicate check aside). */
  predicate SignupAcceptable(f: SignupForm, isEmail: string -> bool, isStrong: string -> bool) {
    && Truthy(f.username) && Truthy(f.email) && Truthy(f.password)
    && isEmail(f.email.value) && isStrong(f.password.value)
    && Strings.Utf16Length(f.username.value) >= 3 && Strings.Utf16Length(f.password.value) >= 6
  }

  /** `findOne({ email })`: the first user registered under `email`, or -1. */
  function FindByEmail(users: seq<User>, email: string): (r: int)
    ensures -1 <= r < |users|
    ensures r >= 0 ==> users[r].email == email && forall i :: 0 <= i < r ==> users[i].email != email
    ensures r == -1 <==> forall i :: 0 <= i < |users| ==> users[i].email != email
  {
    Sequences.FirstIndex(users, (u: User) => u.email == email)
  }

  function UserIds(users: seq<User>): (ids: seq<Id>)
    ensures |ids| == |users| && forall i :: 0 <= i < |users| ==> ids[i] == users[i].id
  {
    Sequences.Project(users, (u: User) => u.id)
  }

  /** The session a successful sign-up or log-in opens: a signed token in a week-long cookie. */
  function Session(u: User, email: string, sign: Claims -> string): (c: Cookie)
    ensures c.name == "token" && c.maxAge == Some(604800000)
    ensures c.value == Some(sign(Claims(u.id, u.username, email, 7200)))
  {
    Cookie("token", Some(sign(Claims(u.id, u.username, email, TokenLifetime))), Some(CookieMaxAge))
  }

  /** The credential collection. */
  class UserStore {
    var users: seq<User>

    /** Ids and emails are each registered once. */
    ghost predicate Valid()
      reads this
    {
      forall i, j :: 0 <= i < j < |users| ==> users[i].id != users[j].id && users[i].email != users[j].email
    }

    constructor ()
      ensures Valid() && users == []
    {
      users := [];
    }

    /**
     * `postSignup`. The field checks run first and answer 400 with the first
     * failed check's message. Then the lookup for the email; then hashing and
     * inserting; then signing the token. A `fault` in one of those calls is
     * answered 400 with its message. A signing fault comes after the insert,
     * so the user stays stored although the reply is an error.
     */
    method PostSignup(f: SignupForm, isEmail: string -> bool, isStrong: string -> bool,
                      hash: string -> string, sign: Claims -> string, fault: Fault)
      returns (r: Reply)
      requires Valid()
      modifies this
      ensures Valid()
      ensures var taken := Truthy(f.email) && FindByEmail(old(users), f.email.value) >= 0;
        && (!SignupAcceptable(f, isEmail, isStrong) ==>
              r == Rejected(400, SignupRejection(f, isEmail, isStrong, taken).value) && users == old(users))
        && (SignupAcceptable(f, isEmail, isStrong) && fault.LookupFails? ==>
              r == Rejected(400, fault.message) && users == old(users))
        && (SignupAcceptable(f, isEmail, isStrong) && !fault.LookupFails? && taken ==>
              r == Rejected(400, AlreadyExists) && users == old(users))
        && (SignupAcceptable(f, isEmail, isStrong) && !taken && (fault.CryptoFails? || fault.CreateFails?) ==>
              r == Rejected(400, fault.message) && users == old(users))
        && (SignupAcceptable(f, isEmail, isStrong) && !taken && (fault.NoFault? || fault.SignFails?) ==>
              var u := User(FreshId(UserIds(old(users))), f.username.value, f.email.value, hash(f.password.value));
              && users == old(users) + [u]
              && r == if fault.SignFails? then Rejected(400, fault.message)
                      else SignedIn(201, "User signed up successfully", Public(u), Session(u, f.email.value, sign)))
      ensures users != old(users) ==> SignupAcceptable(f, isEmail, isStrong) && (fault.NoFault? || fault.SignFails?)
    {
      if !SignupAcceptable(f, isEmail, isStrong) {
        var taken := Truthy(f.email) && FindByEmail(users, f.email.value) >= 0;
        return Rejected(400, SignupRejection(f, isEmail, isStrong, taken).value);
      }
      if fault.LookupFails? {
        return Rejected(400, fault.message);
      }
      if FindByEmail(users, f.email.value) >= 0 {
        return Rejected(400, AlreadyExists);
      }
      if fault.CryptoFails? || fault.CreateFails? {
        return Rejected(400, fault.message);
      }
      var ids := UserIds(users);
      var u := User(FreshId(ids), f.username.value, f.email.value, hash(f.password.value));
      forall i | 0 <= i < |users| ensures users[i].id != u.id && users[i].email != u.email {
        assert ids[i] == users[i].id;
      }
      users := users + [u];
      if fault.SignFails? {
        return Rejected(400, fault.message);
      }
      r := SignedIn(201, "User signed up successfully", Public(u), Session(u, u.email, sign));
    }

    /**
     * `postLogin`: every failure answers 401. A missing field, an unknown
     * email and a wrong password throw their own messages, the last two one
     * and the same; a `fault` in the lookup, the comparison or the signing
     * is answered with its message.
     */
    function Login(f: LoginForm, compare: (string, string) -> bool, sign: Claims -> string, fault: Fault)
      : (r: Reply)
      reads this
      ensures !(Truthy(f.email) && Truthy(f.password)) ==> r == Rejected(401, LoginRequired)
      ensures Truthy(f.email) && Truthy(f.password) && fault.LookupFails? ==> r == Rejected(401, fault.message)
      ensures Truthy(f.email) && Truthy(f.password) && !fault.LookupFails? && FindByEmail(users, f.email.value) == -1 ==>
        r == Rejected(401, BadCredentials)
      ensures Truthy(f.email) && Truthy(f.password) && !fault.LookupFails? && FindByEmail(users, f.email.value) >= 0 ==>
        var u := users[FindByEmail(users, f.email.value)];
        && (fault.CryptoFails? ==> r == Rejected(401, fault.message))
        && (!fault.CryptoFails? && !compare(f.password.value, u.password) ==> r == Rejected(401, BadCredentials))
        && (!fault.CryptoFails? && compare(f.password.value, u.password) && fault.SignFails? ==>
              r == Rejected(401, fault.message))
      ensures r.SignedIn? <==>
        && Truthy(f.email) && Truthy(f.password)
        && !fault.LookupFails? && !fault.CryptoFails? && !fault.SignFails?
        && FindByEmail(users, f.email.value) >= 0
        && compare(f.password.value, users[FindByEmail(users, f.email.value)].password)
      ensures r.SignedIn? ==>
        var u := users[FindByEmail(users, f.email.value)];
        r == SignedIn(201, "user Login successfully", Public(u), Session(u, f.email.value, sign))
      ensures r.Rejected? ==> r.status == 401
    {
      if !(Truthy(f.email) && Truthy(f.password)) then Rejected(401, LoginRequired)
      else if fault.LookupFails? then Rejected(401, fault.message)
      else
        var i := FindByEmail(users, f.email.value);
        if i == -1 then Rejected(401, BadCredentials)
        else if fault.CryptoFails? then Rejected(401, fault.message)
        else if !compare(f.password.value, users[i].password) then Rejected(401, BadCredentials)
        else if fault.SignFails? then Rejected(401, fault.message)
        else SignedIn(201, "user Login successfully", Public(users[i]), Session(users[i], f.email.value, sign))
    }
  }

  /**
   * An unknown email and a wrong password for a known one are answered
   * alike, so the reply does not tell which emails are registered.
   */
  lemma LoginDoesNotRevealAccounts(store: UserStore, e1: string, e2: string, p: string, q: string,
                                   compare: (string, string) -> bool, sign: Claims -> string, fault: Fault)
    requires e1 != "" && e2 != "" && p != "" && q != ""
    requires !fault.LookupFails? && !fault.CryptoFails?
    requires FindByEmail(store.users, e1) == -1
    requires var i := FindByEmail(store.users, e2); i >= 0 && !compare(q, store.users[i].password)
    ensures store.Login(LoginForm(Some(e1), Some(p)), compare, sign, fault)
         == store.Login(LoginForm(Some(e2), Some(q)), compare, sign, fault)
    ensures store.Login(LoginForm(Some(e1), Some(p)), compare, sign, fault)
         != store.Login(LoginForm(None, Some(q)), compare, sign, fault)
  {
  }

  /**
   * The text Express writes for a `null` cookie value: an object value is
   * stored as "j:" followed by its JSON. cookie-parser turns a "j:" cookie
   * back into its JSON value only when that value is truthy, so the guard
   * reads this very text back.
   */
  const NullCookie := "j:null"

  /** `postLogout`: the token cookie is overwritten with the serialised null, as a session cookie, and the reply is 201. */
  function Logout(): (r: (Cookie, int, string))
    ensures r.0 == Cookie("token", Some("j:null"), None) && r.1 == 201
  {
    (Cookie("token", Some(NullCookie), None), 201, "User logout successful")
  }

  /**
   * After log-out the browser sends the text "j:null", which is present, so
   * the guard hands it to `jwt.verify`. The request reaches a handler only if
   * verification accepts that text; when it throws (as it does for text that
   * is not a token) the guard answers 401 with the error's message.
   */
  lemma LogoutEndsSession(verify: string -> AuthMiddleware.Verified, find: Id -> AuthMiddleware.Lookup)
    ensures AuthMiddleware.Decide(Logout().0.value, verify, find).Next? ==> verify("j:null").Payload?
    ensures verify("j:null").Thrown? ==>
      AuthMiddleware.Decide(Logout().0.value, verify, find) == AuthMiddleware.Respond(401, verify("j:null").message)
  {
  }

  /** `validUser`: the authenticated user's public fields, with status 201. */
  function ValidUser(user: User): (r: (int, PublicUser))
    ensures r.0 == 201 && r.1 == Public(user)
  {
    (201, Public(user))
  }
}
