/** The request gatekeeper: one decision per inbound request. Public routes
    (auth, websocket, error pages, CORS preflight) pass untouched; every other
    request must carry an Authorization header whose token resolves to a user
    in the table, or it is rejected with a status and a plain-text body. */
module TokenFilter {
  import opened Wrappers
  import opened Auth

  const MissingTokenBody := "Something in the request wasn't properly written, try again"
  const InvalidTokenBody := "Invalid Token"
  /** The body of the branch for a null token read from a non-null header. */
  const TokenIsNullBody := "token is null"
  const OptionsMethod := "OPTIONS"

  /** What the filter does with a request: hand it to the rest of the chain,
      with the authenticated user attached as the request attribute "user" when
      there is one, or write a status and a body and stop. */
  datatype FilterOutcome = Pass(user: Option<User>) | Reject(status: int, body: string)

  /** sub occurs in s starting at index i. */
  ghost predicate OccursAt(s: string, sub: string, i: int)
  {
    0 <= i && i + |sub| <= |s| && s[i..i + |sub|] == sub
  }

  /** Shifts an occurrence in the tail of s to an occurrence in s itself. */
  lemma OccursInTail(s: string, sub: string, i: int)
    requires |s| > 0 && OccursAt(s[1..], sub, i)
    ensures OccursAt(s, sub, i + 1)
  {
  }

  /** String.contains. */
  function Contains(s: string, sub: string): (r: bool)
    ensures r <==> exists i :: OccursAt(s, sub, i)
    decreases |s|
  {
    if |sub| > |s| then
      false
    else if s[..|sub|] == sub then
      assert OccursAt(s, sub, 0);
      true
    else
      var r := Contains(s[1..], sub);
      if r then
        assert exists i :: OccursAt(s, sub, i) by {
          var i :| OccursAt(s[1..], sub, i);
          OccursInTail(s, sub, i);
        }
        r
      else
        assert forall i | OccursAt(s, sub, i) :: i > 0 && OccursAt(s[1..], sub, i - 1) by {
          forall i | OccursAt(s, sub, i) ensures i > 0 && OccursAt(s[1..], sub, i - 1) {
            assert s[1..][i - 1..i - 1 + |sub|] == s[i..i + |sub|];
          }
        }
        r
  }

  /** The routes that bypass authentication: the URL mentions auth, ws or
      error, or the method is OPTIONS. */
  function IsPublic(url: string, httpMethod: string): (r: bool)
    ensures r <==> || (exists i :: OccursAt(url, "auth", i))
                   || (exists i :: OccursAt(url, "ws", i))
                   || (exists i :: OccursAt(url, "error", i))
                   || httpMethod == "OPTIONS"
  {
    Contains(url, "auth") || Contains(url, "ws") || Contains(url, "error") || httpMethod == OptionsMethod
  }

  /** doFilter. users is the user table, codec the JWT library and isReal the
      service's checkTokenIsReal(userId, token), which is not part of this model. */
  function DoFilter(url: string, httpMethod: string, authorization: Option<Token>,
                    users: map<UserId, User>, codec: TokenCodec, isReal: (UserId, Token) -> bool): (r: FilterOutcome)
    // bypass, without looking at the header
    ensures IsPublic(url, httpMethod) <==> r == Pass(None)
    // missing header
    ensures r == Reject(400, MissingTokenBody) <==> !IsPublic(url, httpMethod) && authorization.None?
    // token resolution threw: 404 carrying the exception's message
    ensures r.Reject? && r.status == 404 <==>
              && !IsPublic(url, httpMethod) && authorization.Some?
              && (codec.decodeId(authorization.value).None? || codec.decodeId(authorization.value).value !in users)
    ensures r.Reject? && r.status == 404 ==>
              r.body == (if codec.decodeId(authorization.value).None? then WrongTokenInput else NoIdInDB).Message()
    // the token resolves but checkTokenIsReal refuses it
    ensures r == Reject(400, InvalidTokenBody) <==>
              && !IsPublic(url, httpMethod) && authorization.Some?
              && codec.decodeId(authorization.value).Some? && codec.decodeId(authorization.value).value in users
              && !isReal(codec.decodeId(authorization.value).value, authorization.value)
    // authenticated: the attribute is the user the token names
    ensures r.Pass? && r.user.Some? <==>
              && !IsPublic(url, httpMethod) && authorization.Some?
              && codec.decodeId(authorization.value).Some? && codec.decodeId(authorization.value).value in users
              && isReal(codec.decodeId(authorization.value).value, authorization.value)
    ensures r.Pass? && r.user.Some? ==> r.user.value == users[codec.decodeId(authorization.value).value]
    // every rejection is a 400 or a 404
    ensures r.Reject? ==> r.status == 400 || r.status == 404
  {
    if IsPublic(url, httpMethod) then
      Pass(None)
    else
      match authorization
      case None => Reject(400, MissingTokenBody)
      case Some(token) =>
        match CheckTokenToUserInDB(users, codec, token)
        case Failure(e) => Reject(404, e.Message())
        case Success(userId) =>
          var user := GetUser(users, userId);
          if isReal(userId, token) && user.Some? then Pass(Some(user.value))
          else Reject(400, InvalidTokenBody)
  }

  /** Documentation of the dead "token is null" branch: the header is an
      Option here, so the token read under the header-present guard is never
      null and that rejection is never produced. */
  lemma TokenIsNullNeverReported(url: string, httpMethod: string, authorization: Option<Token>,
                                 users: map<UserId, User>, codec: TokenCodec, isReal: (UserId, Token) -> bool)
    ensures DoFilter(url, httpMethod, authorization, users, codec, isReal) != Reject(400, TokenIsNullBody)
  {
  }

  /** A protected route with a token freshly returned by login is let through
      with the logged-in user attached, when the codec decodes what it
      generates and checkTokenIsReal accepts the token. */
  lemma LoginTokenPassesFilter(url: string, httpMethod: string, users: map<UserId, User>, email: string, password: string,
                               codec: TokenCodec, now: int, isReal: (UserId, Token) -> bool)
    requires WellFormed(users) && DecodeInvertsGenerate(codec)
    requires !IsPublic(url, httpMethod)
    requires Login(users, email, password, codec, now).Success?
    requires var info := Login(users, email, password, codec, now).value; isReal(info.userId, info.token)
    ensures var info := Login(users, email, password, codec, now).value;
            && DoFilter(url, httpMethod, Some(info.token), users, codec, isReal) == Pass(Some(users[info.userId]))
            && users[info.userId].email == email
            && users[info.userId].id == info.userId
  {
  }
}
