/** The sign-up and sign-in decisions over the table of accounts. The table is keyed by the
    stored, lower-cased email. Password hashing, password checking and token signing are
    parameters; so is the result of Google's token verification (`None` when it fails). */
module AuthRoutes {
  import opened Wrappers
  import opened Text
  import opened DateTimes
  import opened Documents
  import opened UserModel

  /** The body of a successful sign-in: a token for the account and its public view. */
  datatype AuthResponse = AuthResponse(accessToken: string, tokenType: string, user: Doc)

  const Bearer: string := "bearer"

  /** The claims of a verified Google ID token that the sign-in reads; `None` when absent. */
  datatype Claims = Claims(
    iss: Option<string>,
    emailVerified: Option<bool>,
    email: Option<string>,
    name: Option<string>,
    sub: Option<string>)

  const GoogleIssuers: set<string> := {"accounts.google.com", "https://accounts.google.com"}

  const DefaultGoogleName: string := "Google User"

  /** What a Google sign-in goes on with once the claims are accepted. */
  datatype GoogleIdentity = GoogleIdentity(email: string, name: string, googleId: string)

  /** A well-formed table: every account is stored under its own email, which is lower-case,
      has an ObjectId, and keeps its password hash, if any, as text. */
  predicate WellFormed(users: map<string, Doc>) {
    forall e :: e in users ==>
      && IsLower(e)
      && "email" in users[e] && users[e]["email"] == Str(e)
      && "_id" in users[e] && users[e]["_id"].Oid?
      && (Truthy(Get(users[e], "hashed_password")) ==> users[e]["hashed_password"].Str?)
  }

  // ---------------------------------------------------------------------------
  // register

  /** The account a sign-up stores. */
  function LocalAccount(email: string, name: string, hashedPassword: string, id: ObjectId, nowUs: int): Doc {
    CreateUser(email, name, Some(hashedPassword), Some(LocalProvider), None, nowUs)["_id" := Oid(id)]
  }

  // ---------------------------------------------------------------------------
  // login

  /** Signing in with a password. An unknown email and a wrong password both give
      "Invalid credentials"; an account without a password hash is told to use Google; the
      checks run in that order. The email is compared in lower case. */
  function Login(users: map<string, Doc>, email: string, password: string,
                 verifyPassword: (string, string) -> bool, createToken: string -> string)
    : (r: Result<AuthResponse, HttpError>)
    requires WellFormed(users)
    ensures ToLower(email) !in users ==> r == Err(HttpError(Unauthorized, "Invalid credentials"))
    ensures ToLower(email) in users && !Truthy(Get(users[ToLower(email)], "hashed_password")) ==>
      r == Err(HttpError(Unauthorized, "This account uses Google sign-in"))
    ensures && ToLower(email) in users
            && Truthy(Get(users[ToLower(email)], "hashed_password"))
            && !verifyPassword(password, users[ToLower(email)]["hashed_password"].s)
            ==> r == Err(HttpError(Unauthorized, "Invalid credentials"))
    ensures r.Ok? <==>
      && ToLower(email) in users
      && Truthy(Get(users[ToLower(email)], "hashed_password"))
      && verifyPassword(password, users[ToLower(email)]["hashed_password"].s)
    ensures r.Err? ==> r.error.status == Unauthorized
    ensures r.Ok? ==> r.value == AuthResponse(createToken(ToLower(email)), Bearer, UserToDict(users[ToLower(email)]))
  {
    var key := ToLower(email);
    if key !in users then Err(HttpError(Unauthorized, "Invalid credentials"))
    else
      var doc := users[key];
      if !Truthy(Get(doc, "hashed_password")) then Err(HttpError(Unauthorized, "This account uses Google sign-in"))
      else if !verifyPassword(password, doc["hashed_password"].s) then Err(HttpError(Unauthorized, "Invalid credentials"))
      else Ok(AuthResponse(createToken(key), Bearer, UserToDict(doc)))
  }

  // ---------------------------------------------------------------------------
  // google_auth

  /** The checks on the verified claims, in order: verification succeeded, the issuer is
      Google's, the email is verified, and both the email and the subject are non-empty.
      The email is lower-cased and a missing or empty name becomes "Google User". */
  function CheckGoogleClaims(verified: Option<Claims>): (r: Result<GoogleIdentity, HttpError>)
    ensures verified.None? ==> r == Err(HttpError(Unauthorized, "Invalid Google token"))
    ensures verified.Some? && !(verified.value.iss.Some? && verified.value.iss.value in GoogleIssuers) ==>
      r == Err(HttpError(Unauthorized, "Invalid token issuer"))
    ensures r.Ok? <==>
      && verified.Some?
      && verified.value.iss.Some? && verified.value.iss.value in GoogleIssuers
      && verified.value.emailVerified == Some(true)
      && verified.value.email.Some? && verified.value.email.value != ""
      && verified.value.sub.Some? && verified.value.sub.value != ""
    ensures r.Err? ==> r.error.status == Unauthorized
    ensures r.Ok? ==>
      && r.value.email == ToLower(verified.value.email.value) && IsLower(r.value.email) && r.value.email != ""
      && r.value.googleId == verified.value.sub.value
      && r.value.name == (if verified.value.name.Some? && verified.value.name.value != ""
                          then verified.value.name.value else DefaultGoogleName)
  {
    match verified
    case None => Err(HttpError(Unauthorized, "Invalid Google token"))
    case Some(claims) =>
      if !(claims.iss.Some? && claims.iss.value in GoogleIssuers) then
        Err(HttpError(Unauthorized, "Invalid token issuer"))
      else if claims.emailVerified != Some(true) then
        Err(HttpError(Unauthorized, "Google email is not verified"))
      else
        var email := ToLower(claims.email.GetOr(""));
        var name := if claims.name.Some? && claims.name.value != "" then claims.name.value else DefaultGoogleName;
        var googleId := claims.sub.GetOr("");
        if email == "" || googleId == "" then Err(HttpError(Unauthorized, "Invalid Google token payload"))
        else Ok(GoogleIdentity(email, name, googleId))
  }

  /** An existing account linked to a Google id. */
  function Linked(doc: Doc, googleId: string): Doc {
    doc["google_id" := Str(googleId)]["auth_provider" := Str("google")]
  }

  /** The account a first Google sign-in stores. */
  function GoogleAccount(identity: GoogleIdentity, id: ObjectId, nowUs: int): Doc {
    CreateUser(identity.email, identity.name, None, Some("google"), Some(identity.googleId), nowUs)["_id" := Oid(id)]
  }

  /** The table after a Google sign-in with accepted claims: an unknown email gets a new
      Google account; a known one without a Google id is linked; a linked one is left alone. */
  function GoogleTable(users: map<string, Doc>, identity: GoogleIdentity, id: ObjectId, nowUs: int): map<string, Doc> {
    if identity.email !in users then users[identity.email := GoogleAccount(identity, id, nowUs)]
    else if !Truthy(Get(users[identity.email], "google_id")) then
      users[identity.email := Linked(users[identity.email], identity.googleId)]
    else users
  }

  /** Adding a well-formed account under its own lower-case email keeps the table well formed. */
  lemma AddKeepsWellFormed(users: map<string, Doc>, key: string, doc: Doc)
    requires WellFormed(users) && IsLower(key)
    requires "email" in doc && doc["email"] == Str(key) && "_id" in doc && doc["_id"].Oid?
    requires Truthy(Get(doc, "hashed_password")) ==> doc["hashed_password"].Str?
    ensures WellFormed(users[key := doc])
  {
  }

  /** Every Google sign-in keeps the table well formed. */
  lemma GoogleTableWellFormed(users: map<string, Doc>, identity: GoogleIdentity, id: ObjectId, nowUs: int)
    requires WellFormed(users) && IsLower(identity.email)
    ensures WellFormed(GoogleTable(users, identity, id, nowUs))
  {
    var e := identity.email;
    if e !in users {
      LowerIsFixedPoint(e);
      AddKeepsWellFormed(users, e, GoogleAccount(identity, id, nowUs));
    } else if !Truthy(Get(users[e], "google_id")) {
      AddKeepsWellFormed(users, e, Linked(users[e], identity.googleId));
    }
  }

  /** A second Google sign-in with the same claims changes nothing. */
  lemma GoogleSignInSettles(users: map<string, Doc>, identity: GoogleIdentity, id1: ObjectId, id2: ObjectId,
                            now1: int, now2: int)
    requires identity.googleId != ""
    ensures var once := GoogleTable(users, identity, id1, now1);
      GoogleTable(once, identity, id2, now2) == once
  {
    var once := GoogleTable(users, identity, id1, now1);
    assert identity.email in once;
    assert Get(once[identity.email], "google_id") == Str(identity.googleId) || Truthy(Get(once[identity.email], "google_id"));
  }

  /** Signing up and then signing in with the same password, in any letter case of the
      email, succeeds when the hash of the password verifies against the password. */
  lemma LoginAfterRegister(users: map<string, Doc>, email: string, signInEmail: string, name: string,
                           password: string, id: ObjectId, nowUs: int, hash: string -> string,
                           verifyPassword: (string, string) -> bool, createToken: string -> string)
    requires WellFormed(users) && ToLower(email) !in users
    requires ToLower(signInEmail) == ToLower(email)
    requires hash(password) != "" && verifyPassword(password, hash(password))
    ensures WellFormed(users[ToLower(email) := LocalAccount(email, name, hash(password), id, nowUs)])
    ensures Login(users[ToLower(email) := LocalAccount(email, name, hash(password), id, nowUs)],
                  signInEmail, password, verifyPassword, createToken).Ok?
  {
    ToLowerIdempotent(email);
  }

  // ---------------------------------------------------------------------------
  // The table of accounts

  class UserTable {
    var users: map<string, Doc>

    predicate Valid()
      reads this
    {
      WellFormed(users)
    }

    constructor ()
      ensures Valid() && users == map[]
    {
      users := map[];
    }

    /** Signing up: an email already taken, in any letter case, is refused and nothing is
        stored; otherwise exactly one local account is added under the lower-cased email and
        a token for that email is returned. `newId` is the ObjectId the database assigns. */
    method Register(email: string, name: string, password: string, newId: ObjectId, nowUs: int,
                    hash: string -> string, createToken: string -> string)
      returns (res: Result<AuthResponse, HttpError>)
      requires Valid()
      modifies this
      ensures Valid()
      ensures ToLower(email) in old(users) ==>
        res == Err(HttpError(BadRequest, "User with this email already exists")) && users == old(users)
      ensures ToLower(email) !in old(users) ==>
        var stored := LocalAccount(email, name, hash(password), newId, nowUs);
        && users == old(users)[ToLower(email) := stored]
        && res == Ok(AuthResponse(createToken(ToLower(email)), Bearer, UserToDict(stored)))
    {
      var key := ToLower(email);
      if key in users {
        return Err(HttpError(BadRequest, "User with this email already exists"));
      }
      var hashedPassword := hash(password);
      var userDoc := CreateUser(email, name, Some(hashedPassword), Some(LocalProvider), None, nowUs);
      userDoc := userDoc["_id" := Oid(newId)];
      ToLowerIdempotent(email);
      users := users[key := userDoc];
      var accessToken := createToken(key);
      res := Ok(AuthResponse(accessToken, Bearer, UserToDict(userDoc)));
    }

    /** Signing in with a password; changes nothing. */
    method SignIn(email: string, password: string, verifyPassword: (string, string) -> bool,
                  createToken: string -> string) returns (res: Result<AuthResponse, HttpError>)
      requires Valid()
      ensures res == Login(users, email, password, verifyPassword, createToken)
    {
      res := Login(users, email, password, verifyPassword, createToken);
    }

    /** Signing in with Google: rejected claims change nothing; accepted ones link or create
        the account for their email and return a token for that email. */
    method GoogleAuth(verified: Option<Claims>, newId: ObjectId, nowUs: int, createToken: string -> string)
      returns (res: Result<AuthResponse, HttpError>)
      requires Valid()
      modifies this
      ensures Valid()
      ensures CheckGoogleClaims(verified).Err? ==>
        res == Err(CheckGoogleClaims(verified).error) && users == old(users)
      ensures CheckGoogleClaims(verified).Ok? ==>
        var identity := CheckGoogleClaims(verified).value;
        && users == GoogleTable(old(users), identity, newId, nowUs)
        && res == Ok(AuthResponse(createToken(identity.email), Bearer, UserToDict(users[identity.email])))
    {
      var checked := CheckGoogleClaims(verified);
      if checked.Err? {
        return Err(checked.error);
      }
      var identity := checked.value;
      var email := identity.email;
      GoogleTableWellFormed(users, identity, newId, nowUs);
      var userDoc: Doc;
      if email in users {
        userDoc := users[email];
        if !Truthy(Get(userDoc, "google_id")) {
          userDoc := Linked(userDoc, identity.googleId);
          users := users[email := userDoc];
        }
      } else {
        var newUser := CreateUser(email, identity.name, None, Some("google"), Some(identity.googleId), nowUs);
        newUser := newUser["_id" := Oid(newId)];
        users := users[email := newUser];
        userDoc := newUser;
      }
      res := Ok(AuthResponse(createToken(email), Bearer, UserToDict(userDoc)));
    }
  }
}
