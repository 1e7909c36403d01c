/** The authentication service: a user table keyed by id in which emails are
    unique, local registration and login, federated (GitHub) login, and the
    check that turns a bearer token back into the id of an existing user.
    The JWT library and the GitHub handshake are parameters of the model. */
module Auth {
  import opened Wrappers

  type UserId = int
  type Token = string

  datatype Provider = Local | Github

  /** A stored user record. */
  datatype User = User(id: UserId, email: string, name: string, password: string, provider: Provider)

  /** The request payload of register and login. */
  datatype UserRequest = UserRequest(email: string, password: string, name: string)

  /** What a successful login hands back: the user's id and a fresh token. */
  datatype LoginInfo = LoginInfo(userId: UserId, token: Token)

  /** The GitHub profile returned by the OAuth handshake; name and email may be null. */
  datatype GitUser = GitUser(login: string, name: Option<string>, email: Option<string>, accessToken: string)

  // ---------------------------------------------------------------------------
  // Token codec
  // ---------------------------------------------------------------------------

  /** Fixed issuer and purpose written into every token. */
  const Issuer := "Project Management"
  const Purpose := "login"

  /** The JWT library, left uninterpreted: createJwt(subjectId, issuer, purpose, issuedAt)
      signs a token; decodeId verifies one and reads its id claim as a number,
      giving None for a token that fails to decode or whose id does not parse. */
  datatype TokenCodec = TokenCodec(createJwt: (UserId, string, string, int) -> Token, decodeId: Token -> Option<UserId>)

  /** The assumption, not established by the service itself, that decoding a
      token signed with this service's issuer and purpose gives back the id it
      was signed for. */
  ghost predicate DecodeInvertsGenerate(codec: TokenCodec)
  {
    forall id, now :: codec.decodeId(codec.createJwt(id, Issuer, Purpose, now)) == Some(id)
  }

  /** The token issued for a user at time now (milliseconds since the epoch):
      its subject is the user's id, its issuer "Project Management" and its
      purpose "login". Under the codec assumption it decodes to that id, and
      no token issued for another user, at any time, equals it. */
  function GenerateToken(codec: TokenCodec, id: UserId, now: int): (t: Token)
    ensures DecodeInvertsGenerate(codec) ==> codec.decodeId(t) == Some(id)
    ensures DecodeInvertsGenerate(codec) ==> forall b, nowB :: b != id ==> t != codec.createJwt(b, Issuer, Purpose, nowB)
  {
    codec.createJwt(id, Issuer, Purpose, now)
  }

  /** Under that assumption, tokens generated for different users never
      coincide, whatever their issue times. */
  lemma GeneratedTokensDistinct(codec: TokenCodec, a: UserId, b: UserId, nowA: int, nowB: int)
    requires DecodeInvertsGenerate(codec)
    requires a != b
    ensures GenerateToken(codec, a, nowA) != GenerateToken(codec, b, nowB)
  {
  }

  // ---------------------------------------------------------------------------
  // Messages
  // ---------------------------------------------------------------------------

  const UserAlreadyExist := "user already exist"
  const FailedDuringCreation := "Failed during creation"
  const PasswordMismatch := "password do not match"
  const InvalidCode := "Invalid code"
  const EmailAlreadyExists := "Email already exists!"

  function NoUserWithEmail(email: string): string
  {
    "user with this email do not exist" + email
  }

  /** The message of the IllegalArgumentException thrown by createUser. */
  function DuplicateEmail(email: string): string
  {
    "Email " + email + " already exists!"
  }

  /** The two exceptions token resolution can throw. */
  datatype TokenError = WrongTokenInput | NoIdInDB
  {
    function Message(): string
    {
      match this
      case WrongTokenInput => "Wrong token input"
      case NoIdInDB => "no id in DB"
    }
  }

  // ---------------------------------------------------------------------------
  // The user table
  // ---------------------------------------------------------------------------

  predicate EmailTaken(users: map<UserId, User>, email: string)
  {
    exists id :: id in users && users[id].email == email
  }

  ghost predicate EmailsUnique(users: map<UserId, User>)
  {
    forall a, b :: a in users && b in users && users[a].email == users[b].email ==> a == b
  }

  ghost predicate KeysMatchIds(users: map<UserId, User>)
  {
    forall id :: id in users ==> users[id].id == id
  }

  /** The table invariant: every record sits under its own id, and no two records share an email. */
  ghost predicate WellFormed(users: map<UserId, User>)
  {
    EmailsUnique(users) && KeysMatchIds(users)
  }

  /** Adding a record under a fresh id with an unseen email keeps the table well formed. */
  lemma InsertPreservesWellFormed(users: map<UserId, User>, u: User)
    requires WellFormed(users)
    requires u.id !in users && !EmailTaken(users, u.email)
    ensures WellFormed(users[u.id := u])
    ensures EmailTaken(users[u.id := u], u.email)
  {
    assert users[u.id := u][u.id].email == u.email;
  }

  /** userRepo.findById. */
  function GetUser(users: map<UserId, User>, id: UserId): (r: Option<User>)
    ensures r.Some? <==> id in users
    ensures r.Some? ==> r.value == users[id]
  {
    if id in users then Some(users[id]) else None
  }

  /** userRepo.findByEmail: the one record with the email, if any. */
  function GetUserByEmail(users: map<UserId, User>, email: string): (r: Option<User>)
    requires EmailsUnique(users)
    ensures r.Some? <==> EmailTaken(users, email)
    ensures r.Some? ==> r.value.email == email
    ensures r.Some? ==> forall id :: id in users && users[id].email == email ==> users[id] == r.value
  {
    if EmailTaken(users, email) then
      var id :| id in users && users[id].email == email;
      Some(users[id])
    else
      None
  }

  /** Local login: an unknown email fails; a LOCAL account must match the
      password exactly; any other provider is let in without a comparison. */
  function Login(users: map<UserId, User>, email: string, password: string, codec: TokenCodec, now: int): (r: Result<LoginInfo, string>)
    requires WellFormed(users)
    ensures !EmailTaken(users, email) <==> r == Failure(NoUserWithEmail(email))
    ensures r == Failure(PasswordMismatch) <==>
              exists id :: id in users && users[id].email == email
                        && users[id].provider == Local && users[id].password != password
    ensures r.Success? <==>
              exists id :: id in users && users[id].email == email
                        && (users[id].provider == Local ==> users[id].password == password)
    ensures r.Success? ==>
              r.value.userId in users && users[r.value.userId].email == email
              && r.value.token == GenerateToken(codec, r.value.userId, now)
  {
    match GetUserByEmail(users, email)
    case None => Failure(NoUserWithEmail(email))
    case Some(u) =>
      assert u.id in users && users[u.id] == u;
      if u.provider == Local && u.password != password then
        Failure(PasswordMismatch)
      else
        Success(LoginInfo(u.id, GenerateToken(codec, u.id, now)))
  }

  /** Token resolution: decode, then re-confirm that the id is still in the table. */
  function CheckTokenToUserInDB(users: map<UserId, User>, codec: TokenCodec, token: Token): (r: Result<UserId, TokenError>)
    ensures r == Failure(WrongTokenInput) <==> codec.decodeId(token).None?
    ensures r == Failure(NoIdInDB) <==> codec.decodeId(token).Some? && codec.decodeId(token).value !in users
    ensures r.Success? ==> codec.decodeId(token) == Some(r.value) && r.value in users
  {
    match codec.decodeId(token)
    case None => Failure(WrongTokenInput)
    case Some(id) =>
      if GetUser(users, id).None? then Failure(NoIdInDB) else Success(id)
  }

  /** The account a first GitHub login creates: the profile's name with the
      access token as password, or, with no usable name, an empty name with the
      GitHub login handle as password. */
  function GithubAccount(g: GitUser, email: string): (req: UserRequest)
    ensures req.email == email
    ensures g.name.Some? && g.name.value != "" ==> req.name == g.name.value && req.password == g.accessToken
    ensures !(g.name.Some? && g.name.value != "") ==> req.name == "" && req.password == g.login
  {
    if g.name.Some? && g.name.value != "" then UserRequest(email, g.accessToken, g.name.value)
    else UserRequest(email, g.login, "")
  }

  // ---------------------------------------------------------------------------
  // The service and its state
  // ---------------------------------------------------------------------------

  class AuthService {
    /** The user table, by id. */
    var users: map<UserId, User>
    /** The next id the store will assign. */
    var nextId: UserId

    ghost predicate Valid()
      reads this
    {
      WellFormed(users) && forall id :: id in users ==> id < nextId
    }

    /** The service over a repository that already holds a well-formed table;
        firstFreeId is above every id in it. */
    constructor (initial: map<UserId, User>, firstFreeId: UserId)
      requires WellFormed(initial)
      requires forall id :: id in initial ==> id < firstFreeId
      ensures Valid() && users == initial
    {
      users := initial;
      nextId := firstFreeId;
    }

    /** Creates a user unless the email is already taken (the source throws IllegalArgumentException). */
    method CreateUser(req: UserRequest, provider: Provider) returns (r: Result<User, string>)
      requires Valid()
      modifies this
      ensures Valid()
      ensures EmailTaken(old(users), req.email) ==> r == Failure(DuplicateEmail(req.email)) && users == old(users)
      ensures !EmailTaken(old(users), req.email) ==>
                && r.Success?
                && r.value == User(r.value.id, req.email, req.name, req.password, provider)
                && r.value.id !in old(users)
                && users == old(users)[r.value.id := r.value]
    {
      if EmailTaken(users, req.email) {
        return Failure(DuplicateEmail(req.email));
      }
      var u := User(nextId, req.email, req.name, req.password, provider);
      InsertPreservesWellFormed(users, u);
      users := users[nextId := u];
      nextId := nextId + 1;
      r := Success(u);
    }

    /** Registration: a taken email fails and changes nothing; otherwise one LOCAL user is added. */
    method Register(req: UserRequest) returns (r: Result<User, string>)
      requires Valid()
      modifies this
      ensures Valid()
      ensures EmailTaken(old(users), req.email) ==> r == Failure(UserAlreadyExist) && users == old(users)
      ensures !EmailTaken(old(users), req.email) ==>
                && r.Success?
                && r.value == User(r.value.id, req.email, req.name, req.password, Local)
                && r.value.id !in old(users)
                && users == old(users)[r.value.id := r.value]
    {
      if EmailTaken(users, req.email) {
        return Failure(UserAlreadyExist);
      }
      var created := CreateUser(req, Local);
      r := if created.Success? then created else Failure(FailedDuringCreation);
    }

    /** GitHub login, given the profile the handshake produced (None when it failed):
        create a GITHUB user for an unseen email, then log in with the access token. */
    method LoginGithub(profile: Option<GitUser>, codec: TokenCodec, now: int) returns (r: Result<LoginInfo, string>)
      requires Valid()
      modifies this
      ensures Valid()
      ensures profile.None? || profile.value.email.None? ==> r == Failure(InvalidCode) && users == old(users)
      ensures profile.Some? && profile.value.email.Some? && EmailTaken(old(users), profile.value.email.value) ==>
                && users == old(users)
                && r == Login(old(users), profile.value.email.value, profile.value.accessToken, codec, now)
      ensures profile.Some? && profile.value.email.Some? && !EmailTaken(old(users), profile.value.email.value) ==>
                var req := GithubAccount(profile.value, profile.value.email.value);
                && r.Success?
                && r.value.userId !in old(users)
                && users == old(users)[r.value.userId := User(r.value.userId, req.email, req.name, req.password, Github)]
                && r.value.token == GenerateToken(codec, r.value.userId, now)
    {
      if profile.None? || profile.value.email.None? {
        return Failure(InvalidCode);
      }
      var g := profile.value;
      var email := g.email.value;
      if !EmailTaken(users, email) {
        var created := CreateUser(GithubAccount(g, email), Github);
        if created.Failure? {
          return Failure(EmailAlreadyExists);
        }
        GithubAccountLogsIn(users, created.value.id, g.accessToken, codec, now);
      }
      r := Login(users, email, g.accessToken, codec, now);
    }
  }

  // ---------------------------------------------------------------------------
  // Properties relating several operations
  // ---------------------------------------------------------------------------

  /** A GITHUB account logs in whatever password is offered. */
  lemma GithubAccountLogsIn(users: map<UserId, User>, id: UserId, password: string, codec: TokenCodec, now: int)
    requires WellFormed(users) && id in users && users[id].provider == Github
    ensures Login(users, users[id].email, password, codec, now) == Success(LoginInfo(id, GenerateToken(codec, id, now)))
  {
  }

  /** After registering a fresh LOCAL user, logging in with the same credentials
      succeeds with that user's id, and the token it returns resolves back to
      that id, provided the codec decodes what it generates. */
  lemma RegisterLoginResolve(users: map<UserId, User>, req: UserRequest, id: UserId, codec: TokenCodec, now: int)
    requires WellFormed(users) && !EmailTaken(users, req.email) && id !in users
    requires DecodeInvertsGenerate(codec)
    ensures var users' := users[id := User(id, req.email, req.name, req.password, Local)];
            && WellFormed(users')
            && Login(users', req.email, req.password, codec, now) == Success(LoginInfo(id, GenerateToken(codec, id, now)))
            && CheckTokenToUserInDB(users', codec, GenerateToken(codec, id, now)) == Success(id)
  {
    var u := User(id, req.email, req.name, req.password, Local);
    var users' := users[id := u];
    InsertPreservesWellFormed(users, u);
    var r := Login(users', req.email, req.password, codec, now);
    assert r.Success?;
    assert users'[r.value.userId].email == req.email;
    assert codec.decodeId(GenerateToken(codec, id, now)) == Some(id);
  }

  /** A token generated for user a never resolves to any other user, and it
      resolves exactly while a is in the table. */
  lemma TokenResolvesOnlyToItsUser(users: map<UserId, User>, codec: TokenCodec, a: UserId, now: int)
    requires DecodeInvertsGenerate(codec)
    ensures var r := CheckTokenToUserInDB(users, codec, GenerateToken(codec, a, now));
            && (r.Success? <==> a in users)
            && (r.Success? ==> r.value == a)
            && (r.Failure? ==> r.error == NoIdInDB)
  {
  }

  /** Once a user's record is removed, every token issued for it fails with AccountNotFound. */
  lemma RemovedAccountTokenFails(users: map<UserId, User>, codec: TokenCodec, id: UserId, now: int)
    requires DecodeInvertsGenerate(codec)
    ensures CheckTokenToUserInDB(users - {id}, codec, GenerateToken(codec, id, now)) == Failure(NoIdInDB)
  {
  }

  /** The concrete scenario: one LOCAL user a@x.com with password p1. */
  lemma LoginScenario(codec: TokenCodec, now: int)
    ensures var users := map[1 := User(1, "a@x.com", "A", "p1", Local)];
            && WellFormed(users)
            && Login(users, "a@x.com", "p1", codec, now) == Success(LoginInfo(1, GenerateToken(codec, 1, now)))
            && Login(users, "a@x.com", "wrong", codec, now) == Failure(PasswordMismatch)
            && Login(users, "b@x.com", "p1", codec, now) == Failure(NoUserWithEmail("b@x.com"))
  {
    var users := map[1 := User(1, "a@x.com", "A", "p1", Local)];
    assert users[1].email == "a@x.com";
    assert !EmailTaken(users, "b@x.com") by {
      assert "b@x.com"[0] != "a@x.com"[0];
    }
    var r := Login(users, "a@x.com", "p1", codec, now);
    assert r.Success?;
    assert r.value.userId == 1;
  }
}
