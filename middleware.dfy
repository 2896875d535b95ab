/**
 * Request authentication: which token a request presents, what happens when it
 * presents none or one that does not parse, and how the authenticated user id
 * travels in the request context.
 *
 * Token parsing and signature checking are an input `parse` that maps a token
 * string to its subject claim or to an error.
 */
module Auth {
  import opened Wrappers

  const BearerPrefix: string := "Bearer "
  const StatusUnauthorized: int := 401
  const MissingToken: string := "Unauthorized: missing auth token"
  const NoUserId: string := "user ID not found in context"

  /** The context key the user id is stored under. */
  const UserIdKey: string := "userID"

  /** A context value: a string, or a value of some other type stored under the same key. */
  datatype Value = Str(s: string) | Other

  /** The values a request context carries, by key. */
  type Context = map<string, Value>

  /** The parts of a request authentication looks at: the Authorization header ("" when absent) and the "auth" cookie. */
  datatype Request = Request(authorization: string, authCookie: Option<string>)

  /** Whether the header is "Bearer " followed by at least one character. */
  predicate IsBearer(header: string)
  {
    |header| > |BearerPrefix| && header[..|BearerPrefix|] == BearerPrefix
  }

  /** The token the request presents: the rest of a bearer header, otherwise the cookie's value. */
  function SelectToken(req: Request): (r: Option<string>)
    ensures IsBearer(req.authorization) ==> r == Some(req.authorization[|BearerPrefix|..]) && r.value != ""
    ensures !IsBearer(req.authorization) ==> r == req.authCookie
  {
    if req.authorization != "" && IsBearer(req.authorization) then Some(req.authorization[|BearerPrefix|..])
    else req.authCookie
  }

  /** `ctx` with the user id set to `userId`; every other key keeps its value. */
  function WithUserID(ctx: Context, userId: string): (r: Context)
    ensures UserIdKey in r && r[UserIdKey] == Str(userId)
    ensures forall k :: k in ctx && k != UserIdKey ==> k in r && r[k] == ctx[k]
    ensures r.Keys == ctx.Keys + {UserIdKey}
  {
    ctx[UserIdKey := Str(userId)]
  }

  /** The user id in `ctx`; an error when it is absent, not a string, or empty. */
  function GetUserIDFromContext(ctx: Context): (r: Result<string>)
    ensures r.Ok? <==> UserIdKey in ctx && ctx[UserIdKey].Str? && ctx[UserIdKey].s != ""
    ensures r.Ok? ==> ctx[UserIdKey] == Str(r.value)
    ensures r.Err? ==> r.error == NoUserId
  {
    if UserIdKey in ctx && ctx[UserIdKey].Str? && ctx[UserIdKey].s != "" then Ok(ctx[UserIdKey].s)
    else Err(NoUserId)
  }

  /** What the middleware does with a request: answer it with an error, or pass it on with a new context. */
  datatype Decision = Reject(status: int, message: string) | Proceed(ctx: Context)

  /** The middleware: select the token, parse it, and pass the request on with the subject as user id. */
  function Authenticate(req: Request, ctx: Context, parse: string -> Result<string>): Decision
  {
    match SelectToken(req)
    case None => Reject(StatusUnauthorized, MissingToken)
    case Some(token) =>
      match parse(token)
      case Err(e) => Reject(StatusUnauthorized, "Invalid token: " + e)
      case Ok(subject) => Proceed(WithUserID(ctx, subject))
  }

  // ---------------------------------------------------------------------
  // Properties.
  // ---------------------------------------------------------------------

  /** "Bearer " + t presents t whenever t is non-empty, whatever the cookie. */
  lemma BearerTokenWins(token: string, cookie: Option<string>)
    requires token != ""
    ensures SelectToken(Request(BearerPrefix + token, cookie)) == Some(token)
  {
    assert (BearerPrefix + token)[..|BearerPrefix|] == BearerPrefix;
    assert (BearerPrefix + token)[|BearerPrefix|..] == token;
  }

  /** The bare "Bearer " header, and any header not starting with it, fall back to the cookie. */
  lemma FallsBackToCookie(header: string, cookie: Option<string>)
    requires header == BearerPrefix || !(|header| >= |BearerPrefix| && header[..|BearerPrefix|] == BearerPrefix)
    ensures SelectToken(Request(header, cookie)) == cookie
  {
  }

  /** Storing a non-empty id and reading it back gives the id; storing the empty id reads back as an error. */
  lemma ContextRoundTrip(ctx: Context, userId: string)
    ensures userId != "" ==> GetUserIDFromContext(WithUserID(ctx, userId)) == Ok(userId)
    ensures userId == "" ==> GetUserIDFromContext(WithUserID(ctx, userId)) == Err(NoUserId)
  {
  }

  /**
   * The middleware rejects with 401 iff no token is presented or the token
   * does not parse; otherwise the next handler sees the token's subject as
   * the user id (and, for an empty subject, no user id at all).
   */
  lemma AuthenticateOutcomes(req: Request, ctx: Context, parse: string -> Result<string>)
    ensures var d := Authenticate(req, ctx, parse);
      && (d.Reject? <==> SelectToken(req).None? || parse(SelectToken(req).value).Err?)
      && (d.Reject? ==> d.status == StatusUnauthorized)
      && (SelectToken(req).None? ==> d == Reject(StatusUnauthorized, MissingToken))
      && (d.Proceed? ==> var subject := parse(SelectToken(req).value).value;
            GetUserIDFromContext(d.ctx) == if subject == "" then Err(NoUserId) else Ok(subject))
  {
    match SelectToken(req)
    case None =>
    case Some(token) =>
      match parse(token)
      case Err(_) =>
      case Ok(subject) => ContextRoundTrip(ctx, subject);
  }
}
