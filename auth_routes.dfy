/** The two account routes: `POST /api/auth/signup` creates an account after
    three checks in a fixed order, `POST /api/auth/signin` looks an account up
    and compares the password. Password hashing and comparison are parameters:
    nothing is assumed about them beyond what a lemma states it needs. */
module AuthRoutes {
  import opened Common
  import opened Strings
  import opened Database

  const MinPasswordLength := 6

  const MissingSignUpFieldsMessage := "Email, password, and name are required"
  const ShortPasswordMessage := "Password must be at least 6 characters long"
  const EmailExistsMessage := "User with this email already exists"
  const CreatedMessage := "User created successfully"
  const MissingSignInFieldsMessage := "Email and password are required"
  const InvalidCredentialsMessage := "Invalid email or password"
  const SignedInMessage := "Sign in successful"

  /** The JSON bodies; a field the client did not send is `None`. */
  datatype SignUpBody = SignUpBody(email: Option<string>, password: Option<string>, name: Option<string>)
  datatype SignInBody = SignInBody(email: Option<string>, password: Option<string>)

  /** What the routes reveal of an account: no password, hashed or not. */
  datatype PublicUser = PublicUser(id: nat, email: string, name: string, role: string)

  /** What `generateToken` is given to sign; the cookie carries its result. */
  datatype TokenPayload = TokenPayload(userId: string, email: string, name: string, role: string)

  datatype AuthResponse =
    | Authenticated(status: nat, message: string, user: PublicUser, token: TokenPayload)
    | Failure(status: nat, error: string)

  function Public(u: User): (p: PublicUser)
    ensures p.id == u.id && p.email == u.email && p.name == u.name && p.role == u.role
  {
    PublicUser(u.id, u.email, u.name, u.role)
  }

  /** `userId: user._id.toString()` and the other three public fields. */
  function Payload(u: User): (t: TokenPayload)
    ensures t.userId == NatToString(u.id) && t.email == u.email && t.name == u.name && t.role == u.role
  {
    TokenPayload(NatToString(u.id), u.email, u.name, u.role)
  }

  // ---------------------------------------------------------------- sign-up

  /** The response sign-up gives before it writes anything, if it refuses:
      presence of the three fields first, then the password length, then the
      uniqueness of the email; `None` when all three pass. */
  function SignUpRefusal(users: seq<User>, body: SignUpBody): (r: Option<AuthResponse>)
    ensures !Truthy(body.email) || !Truthy(body.password) || !Truthy(body.name) ==>
      r == Some(Failure(400, MissingSignUpFieldsMessage))
    ensures Truthy(body.email) && Truthy(body.password) && Truthy(body.name) &&
            |body.password.value| < MinPasswordLength ==>
      r == Some(Failure(400, ShortPasswordMessage))
    ensures Truthy(body.email) && Truthy(body.password) && Truthy(body.name) &&
            |body.password.value| >= MinPasswordLength && FindUser(users, body.email.value).Some? ==>
      r == Some(Failure(409, EmailExistsMessage))
    ensures r.None? <==>
      Truthy(body.email) && Truthy(body.password) && Truthy(body.name) &&
      |body.password.value| >= MinPasswordLength && FindUser(users, body.email.value).None?
  {
    if !Truthy(body.email) || !Truthy(body.password) || !Truthy(body.name) then
      Some(Failure(400, MissingSignUpFieldsMessage))
    else if |body.password.value| < MinPasswordLength then
      Some(Failure(400, ShortPasswordMessage))
    else if FindUser(users, body.email.value).Some? then
      Some(Failure(409, EmailExistsMessage))
    else None
  }

  /** `POST /api/auth/signup`: on a refusal nothing is written; otherwise
      exactly one account is added, holding `hash(password)` in place of the
      password, and the 201 response and the token carry its public fields. */
  method SignUp(db: Store, body: SignUpBody, hash: string -> string) returns (resp: AuthResponse)
    requires db.Valid()
    modifies db
    ensures db.Valid()
    ensures SignUpRefusal(old(db.users), body).Some? ==>
      resp == SignUpRefusal(old(db.users), body).value &&
      db.users == old(db.users) && db.nextId == old(db.nextId) && db.clock == old(db.clock)
    ensures SignUpRefusal(old(db.users), body).None? ==>
      var u := User(old(db.nextId), body.email.value, hash(body.password.value), body.name.value, db.defaultRole);
      resp == Authenticated(201, CreatedMessage, Public(u), Payload(u)) &&
      db.users == old(db.users) + [u] && db.nextId == old(db.nextId) + 1 && db.clock == old(db.clock) + 1
    ensures db.products == old(db.products) && db.ledger == old(db.ledger)
  {
    var refusal := SignUpRefusal(db.users, body);
    if refusal.Some? {
      return refusal.value;
    }
    var hashedPassword := hash(body.password.value);
    var user := db.SaveUser(body.email.value, hashedPassword, body.name.value);
    resp := Authenticated(201, CreatedMessage, Public(user), Payload(user));
  }

  // ---------------------------------------------------------------- sign-in

  /** `POST /api/auth/signin`, a read of the user collection and a comparison. */
  function SignIn(users: seq<User>, body: SignInBody, compare: (string, string) -> bool): (r: AuthResponse)
    ensures !Truthy(body.email) || !Truthy(body.password) ==> r == Failure(400, MissingSignInFieldsMessage)
    ensures r.Authenticated? <==>
      Truthy(body.email) && Truthy(body.password) && FindUser(users, body.email.value).Some? &&
      compare(body.password.value, FindUser(users, body.email.value).value.password)
    ensures r.Authenticated? ==>
      var u := FindUser(users, body.email.value).value;
      u in users && u.email == body.email.value &&
      r == Authenticated(200, SignedInMessage, Public(u), Payload(u))
    ensures r.Failure? && Truthy(body.email) && Truthy(body.password) ==> r == Failure(401, InvalidCredentialsMessage)
  {
    if !Truthy(body.email) || !Truthy(body.password) then
      Failure(400, MissingSignInFieldsMessage)
    else
      match FindUser(users, body.email.value)
      case None => Failure(401, InvalidCredentialsMessage)
      case Some(u) =>
        if !compare(body.password.value, u.password) then Failure(401, InvalidCredentialsMessage)
        else Authenticated(200, SignedInMessage, Public(u), Payload(u))
  }

  /** An unknown email and a wrong password are indistinguishable: both get
      the same status and the same message. */
  lemma SignInFailuresAlike(users: seq<User>, email: string, known: string, wrong: string,
                            compare: (string, string) -> bool)
    requires email != "" && known != "" && wrong != ""
    requires FindUser(users, email).None?
    requires FindUser(users, known).Some? && !compare(wrong, FindUser(users, known).value.password)
    ensures SignIn(users, SignInBody(Some(email), Some(wrong)), compare) ==
            SignIn(users, SignInBody(Some(known), Some(wrong)), compare)
  {
  }

  /** The first account with an email is still found after another account
      with a different email is appended, and an email no account had is
      found at the appended account. */
  lemma {:induction false} FindUserAfterAppend(users: seq<User>, u: User, email: string)
    ensures FindUser(users, email).Some? ==> FindUser(users + [u], email) == FindUser(users, email)
    ensures FindUser(users, email).None? && u.email == email ==> FindUser(users + [u], email) == Some(u)
    ensures FindUser(users, email).None? && u.email != email ==> FindUser(users + [u], email).None?
    decreases |users|
  {
    if users == [] {
      assert [] + [u] == [u];
    } else {
      assert (users + [u])[1..] == users[1..] + [u];
      FindUserAfterAppend(users[1..], u, email);
    }
  }

  /** Signing up and then signing in with the same email and password
      succeeds, provided the comparison accepts a password against its own
      hash, and the sign-in reveals the account sign-up created. */
  lemma SignInAfterSignUp(users: seq<User>, nextId: nat, role: string, body: SignUpBody,
                          hash: string -> string, compare: (string, string) -> bool)
    requires SignUpRefusal(users, body).None?
    requires compare(body.password.value, hash(body.password.value))
    ensures var u := User(nextId, body.email.value, hash(body.password.value), body.name.value, role);
      SignIn(users + [u], SignInBody(body.email, body.password), compare) ==
        Authenticated(200, SignedInMessage, Public(u), Payload(u))
  {
    var u := User(nextId, body.email.value, hash(body.password.value), body.name.value, role);
    FindUserAfterAppend(users, u, body.email.value);
  }

  /** Neither route's response depends on the stored password: two accounts
      that differ only there give the same public view and the same token. */
  lemma ResponsesHideThePassword(a: User, b: User)
    requires a.id == b.id && a.email == b.email && a.name == b.name && a.role == b.role
    ensures Public(a) == Public(b) && Payload(a) == Payload(b)
  {
  }
}
