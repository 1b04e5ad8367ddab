/**
 * The `auth(roles)` middleware of backend/middleware/auth.js: the RFID
 * bypass, bearer-token authentication against the active users, the role
 * allow-list and the organization requirement.  Verifying a JSON web
 * token is a function `verify` from a token to the user id it names.
 */
module Auth {
  import opened Wrappers
  import opened Domain
  import opened Query

  const RfidPath: string := "/api/attendance/rfid"
  const BearerPrefix: string := "Bearer "

  datatype HttpRequest = HttpRequest(verb: string, path: string, authorization: Option<string>)

  predicate OccursAt(s: string, pat: string, j: nat) {
    j + |pat| <= |s| && s[j..j + |pat|] == pat
  }

  /** The first position at or after `from` where `pat` occurs in `s`, or -1. */
  function IndexOfFrom(s: string, pat: string, from: nat): (k: int)
    requires from <= |s|
    decreases |s| - from
    ensures k == -1 || (from <= k && OccursAt(s, pat, k))
    ensures k == -1 ==> forall j: nat :: from <= j ==> !OccursAt(s, pat, j)
    ensures k >= 0 ==> forall j: nat :: from <= j < k ==> !OccursAt(s, pat, j)
  {
    if from + |pat| > |s| then -1
    else if OccursAt(s, pat, from) then from
    else IndexOfFrom(s, pat, from + 1)
  }

  /** `header.replace('Bearer ', '')`: the first occurrence, wherever it is, is cut out. */
  function StripBearer(header: string): (token: string)
    ensures IndexOfFrom(header, BearerPrefix, 0) == -1 ==> token == header
    ensures |token| == |header| || |token| == |header| - |BearerPrefix|
    ensures var k := IndexOfFrom(header, BearerPrefix, 0);
      k >= 0 ==> header == token[..k] + BearerPrefix + token[k..]
  {
    var k := IndexOfFrom(header, BearerPrefix, 0);
    if k < 0 then header
    else
      var t := header[..k] + header[k + |BearerPrefix|..];
      assert t[..k] == header[..k];
      assert t[k..] == header[k + |BearerPrefix|..];
      assert header == header[..k] + header[k..k + |BearerPrefix|] + header[k + |BearerPrefix|..];
      t
  }

  /** A client that sends "Bearer " followed by its token has exactly that token read back. */
  lemma StripBearerRoundTrip(token: string)
    ensures StripBearer(BearerPrefix + token) == token
  {
    var h := BearerPrefix + token;
    assert OccursAt(h, BearerPrefix, 0);
    assert h[|BearerPrefix|..] == token;
  }

  /** The token `auth` works with; None when the header is missing. */
  function BearerToken(req: HttpRequest): Option<string> {
    match req.authorization
    case None => None
    case Some(h) => Some(StripBearer(h))
  }

  predicate IsRfidScan(req: HttpRequest) {
    req.path == RfidPath && req.verb == "POST"
  }

  /** The first active user with this id (`User.findOne({_id, isActive: true})`). */
  function ActiveUser(users: seq<User>, id: Id): (r: Option<User>)
    ensures r.Some? ==> r.value in users && r.value.id == id && r.value.isActive
    ensures r.None? <==> forall u :: u in users ==> !(u.id == id && u.isActive)
  {
    var k := FindFirst(users, (u: User) => u.id == id && u.isActive);
    if k < 0 then None else Some(users[k])
  }

  /** The active user a request's token names, if it names one. */
  function Authenticated(req: HttpRequest, verify: string -> Option<Id>, users: seq<User>): (r: Option<User>)
    ensures r.Some? ==>
      && BearerToken(req).Some? && BearerToken(req).value != ""
      && verify(BearerToken(req).value) == Some(r.value.id)
      && r.value in users && r.value.isActive
    ensures r.None? <==>
      || BearerToken(req).None? || BearerToken(req).value == ""
      || verify(BearerToken(req).value).None?
      || ActiveUser(users, verify(BearerToken(req).value).value).None?
  {
    var token := BearerToken(req);
    if token.None? || token.value == "" then None
    else match verify(token.value)
      case None => None
      case Some(id) => ActiveUser(users, id)
  }

  /**
   * Inside the router mounted at "/api/attendance" the middleware sees the
   * path relative to the mount, which the bypass does not recognise.
   */
  lemma MountedScanPathNotBypassed(authorization: Option<string>)
    ensures !IsRfidScan(HttpRequest("POST", "/rfid", authorization))
  {
  }

  /** What a handler behind `auth(roles)` may rely on about `req.user`. */
  predicate Admitted(u: User, roles: seq<Role>) {
    && u.isActive
    && (|roles| == 0 || u.role in roles)
    && (u.role == SuperAdmin || u.organizationId.Some?)
  }

  /**
   * The middleware's decision: Ok(None) calls `next` without a user (the
   * RFID bypass), Ok(Some(u)) calls `next` with `req.user = u`; anything
   * else is the response it sends instead.
   */
  function Gate(req: HttpRequest, roles: seq<Role>, verify: string -> Option<Id>, users: seq<User>): (r: Outcome<Option<User>>)
    ensures IsRfidScan(req) ==> r == Ok(None)
    ensures !IsRfidScan(req) ==>
      match Authenticated(req, verify, users)
      case None => r == Unauthorized
      case Some(u) =>
        && (r == Ok(Some(u)) <==> Admitted(u, roles))
        && (|roles| > 0 && u.role !in roles ==> r == Forbidden("Forbidden"))
        && ((|roles| == 0 || u.role in roles) && u.role != SuperAdmin && u.organizationId.None? ==>
              r == Forbidden("Organization access required"))
    ensures r.Ok? && r.value.Some? ==> Admitted(r.value.value, roles) && r.value.value in users
  {
    if IsRfidScan(req) then Ok(None)
    else match Authenticated(req, verify, users)
      case None => Unauthorized
      case Some(u) =>
        if |roles| > 0 && u.role !in roles then Forbidden("Forbidden")
        else if u.role != SuperAdmin && u.organizationId.None? then Forbidden("Organization access required")
        else Ok(Some(u))
  }

  /** An empty allow-list admits every role; any authenticated user with an organization passes. */
  lemma EmptyRolesAdmitAll(req: HttpRequest, verify: string -> Option<Id>, users: seq<User>)
    requires !IsRfidScan(req)
    requires Authenticated(req, verify, users).Some?
    requires Authenticated(req, verify, users).value.organizationId.Some?
    ensures Gate(req, [], verify, users) == Ok(Some(Authenticated(req, verify, users).value))
  {
  }
}
