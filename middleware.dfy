/**
 * `JWTAuthMiddleware.dispatch`: the gate every request passes before its
 * route handler. A path that starts with a public prefix goes straight
 * through; any other request needs a `Bearer` header whose token verifies
 * and names a stored user who is not suspended. The gate records the user
 * it looked up on the request state before it decides.
 */
module AuthMiddleware {
  import opened Wrappers
  import opened Text
  import opened Security
  import opened Models

  /** The gate's allowlist; matched by prefix. */
  const PublicPrefixes: seq<string> := ["/auth/login", "/auth/register", "/openapi.json", "/docs", "/redoc"]

  /** `any(path.startswith(route) for route in public_routes)`. */
  predicate IsPublicPath(path: string): (b: bool)
    ensures b <==> || "/auth/login" <= path || "/auth/register" <= path || "/openapi.json" <= path
                   || "/docs" <= path || "/redoc" <= path
  {
    assert && PublicPrefixes[0] == "/auth/login" && PublicPrefixes[1] == "/auth/register"
           && PublicPrefixes[2] == "/openapi.json" && PublicPrefixes[3] == "/docs" && PublicPrefixes[4] == "/redoc";
    exists i :: 0 <= i < |PublicPrefixes| && PublicPrefixes[i] <= path
  }

  /** `request.state.user`: never assigned, or assigned the lookup's result (possibly `None`). */
  datatype Attached = Unset | Attached(user: Option<User>)

  /** What the gate answers: the downstream handler's response, or a JSON error. */
  datatype Response<R> = Downstream(response: R) | JsonError(status: int, detail: string)

  /** The request state the handler (or nobody) saw, and the response. */
  datatype Dispatched<R> = Dispatched(state: Attached, response: Response<R>)

  /** `auth_header.split(" ")[1]`, for a header that starts with "Bearer ". */
  function BearerToken(header: string): (token: string)
    requires "Bearer " <= header
    ensures |Split(header)| >= 2 && Split(header)[0] == "Bearer" && token == Split(header)[1]
    ensures ' ' !in token
  {
    var rest := header[|"Bearer "|..];
    assert header == "Bearer" + " " + rest;
    SplitAfterWord("Bearer", rest);
    Split(header)[1]
  }

  /** `db.query(User).filter(User.id == user_id).first()`. */
  function LookupUser(users: map<int, User>, userId: Option<int>): (u: Option<User>)
    ensures u.Some? ==> userId.Some? && userId.value in users && u.value == users[userId.value]
    ensures u.None? ==> userId.None? || userId.value !in users
  {
    if userId.Some? && userId.value in users then Some(users[userId.value]) else None
  }

  /** The header check of line 24: present, non-empty and starting with "Bearer ". */
  predicate HasBearer(authorization: Option<string>)
  {
    authorization.Some? && authorization.value != "" && "Bearer " <= authorization.value
  }

  /** The claims the gate verifies for this header, when it gets that far. */
  function Claims(authorization: Option<string>, verifyJwt: string -> Option<Payload>): Option<Payload>
    requires HasBearer(authorization)
  {
    verifyJwt(BearerToken(authorization.value))
  }

  /**
   * The user a request authenticates as: a well-formed header whose token
   * verifies with a user id naming a stored, non-suspended user.
   */
  predicate AuthenticatesAs(authorization: Option<string>, verifyJwt: string -> Option<Payload>,
                            users: map<int, User>, user: User)
  {
    && HasBearer(authorization)
    && !IsFalsy(Claims(authorization, verifyJwt))
    && LookupUser(users, Claims(authorization, verifyJwt).value.userId) == Some(user)
    && user.status != Suspended
  }

  /** The gate, with the handler `callNext` given the request state it sees. */
  function Dispatch<R>(path: string, authorization: Option<string>, verifyJwt: string -> Option<Payload>,
                       users: map<int, User>, callNext: Attached -> R): (d: Dispatched<R>)
    // The handler runs exactly for public paths and for requests that authenticate.
    ensures d.response.Downstream? <==>
      IsPublicPath(path) || exists u :: AuthenticatesAs(authorization, verifyJwt, users, u)
    // Its response is passed back unchanged, and it sees the state the gate left.
    ensures d.response.Downstream? ==> d.response.response == callNext(d.state)
    // Every rejection is a 401.
    ensures d.response.JsonError? ==> d.response.status == 401
    // A public path is never inspected and leaves the state unassigned.
    ensures IsPublicPath(path) ==> d == Dispatched(Unset, Downstream(callNext(Unset)))
    // An admitted non-public request carries the user it authenticated as.
    ensures !IsPublicPath(path) && d.response.Downstream? ==>
      d.state.Attached? && d.state.user.Some? && AuthenticatesAs(authorization, verifyJwt, users, d.state.user.value)
  {
    if IsPublicPath(path) then
      Dispatched(Unset, Downstream(callNext(Unset)))
    else if !HasBearer(authorization) then
      Dispatched(Unset, JsonError(401, "Missing or invalid Authorization header"))
    else
      var payload := Claims(authorization, verifyJwt);
      if IsFalsy(payload) then
        Dispatched(Unset, JsonError(401, "Invalid or expired token"))
      else
        var user := LookupUser(users, payload.value.userId);
        var state := Attached(user);
        if user.None? then
          Dispatched(state, JsonError(401, "User not found"))
        else if user.value.status == Suspended then
          Dispatched(state, JsonError(401, "User is not accessesd"))
        else
          assert AuthenticatesAs(authorization, verifyJwt, users, user.value);
          Dispatched(state, Downstream(callNext(state)))
  }

  /**
   * The rejection a non-public request gets, by the first check it fails:
   * header, then token, then user lookup, then status.
   */
  lemma RejectionOrder<R>(path: string, authorization: Option<string>, verifyJwt: string -> Option<Payload>,
                          users: map<int, User>, callNext: Attached -> R)
    requires !IsPublicPath(path)
    ensures var d := Dispatch(path, authorization, verifyJwt, users, callNext);
      && (!HasBearer(authorization) ==>
            d == Dispatched(Unset, JsonError(401, "Missing or invalid Authorization header")))
      && (HasBearer(authorization) && IsFalsy(Claims(authorization, verifyJwt)) ==>
            d == Dispatched(Unset, JsonError(401, "Invalid or expired token")))
      && (HasBearer(authorization) && !IsFalsy(Claims(authorization, verifyJwt)) ==>
            var user := LookupUser(users, Claims(authorization, verifyJwt).value.userId);
            && d.state == Attached(user)
            && (user.None? ==> d.response == JsonError(401, "User not found"))
            && (user.Some? && user.value.status == Suspended ==>
                  d.response == JsonError(401, "User is not accessesd")))
  {
  }

  /** The token's role claim never affects the gate: only its user id and truthiness do. */
  lemma RoleClaimIgnored<R>(path: string, authorization: Option<string>, verifyJwt: string -> Option<Payload>,
                            verifyJwt': string -> Option<Payload>, users: map<int, User>, callNext: Attached -> R)
    requires forall t :: verifyJwt(t).Some? == verifyJwt'(t).Some?
    requires forall t :: verifyJwt(t).Some? ==>
      && verifyJwt(t).value.userId == verifyJwt'(t).value.userId
      && verifyJwt(t).value.expiresAt == verifyJwt'(t).value.expiresAt
      && verifyJwt(t).value.otherClaims == verifyJwt'(t).value.otherClaims
      && (verifyJwt(t).value.role.Some? <==> verifyJwt'(t).value.role.Some?)
    ensures Dispatch(path, authorization, verifyJwt, users, callNext)
         == Dispatch(path, authorization, verifyJwt', users, callNext)
  {
    if !IsPublicPath(path) && HasBearer(authorization) {
      var t := BearerToken(authorization.value);
      assert IsFalsy(verifyJwt(t)) == IsFalsy(verifyJwt'(t));
    }
  }

  /**
   * Acceptance depends on the user row's status and never on login records:
   * once a user is suspended, every token naming that user is refused, however
   * fresh, and once the user is active again, every such token that still
   * verifies is accepted.
   */
  lemma StatusDecides<R>(path: string, authorization: Option<string>, verifyJwt: string -> Option<Payload>,
                         users: map<int, User>, callNext: Attached -> R, userId: int)
    requires !IsPublicPath(path) && HasBearer(authorization)
    requires !IsFalsy(Claims(authorization, verifyJwt))
    requires Claims(authorization, verifyJwt).value.userId == Some(userId) && userId in users
    ensures var d := Dispatch(path, authorization, verifyJwt, users, callNext);
      d.response.Downstream? <==> users[userId].status == Active
  {
    if users[userId].status == Active {
      assert AuthenticatesAs(authorization, verifyJwt, users, users[userId]);
    }
  }

  /**
   * A token whose claims hold no user id but are not empty (only an `iat`,
   * say) passes the truthiness check and fails the lookup: the state is
   * assigned `None` and the answer is "User not found".
   */
  lemma ClaimsWithoutUser<R>(path: string, authorization: Option<string>, verifyJwt: string -> Option<Payload>,
                             users: map<int, User>, callNext: Attached -> R)
    requires !IsPublicPath(path) && HasBearer(authorization)
    requires Claims(authorization, verifyJwt) == Some(Payload(None, None, None, true))
    ensures Dispatch(path, authorization, verifyJwt, users, callNext)
         == Dispatched(Attached(None), JsonError(401, "User not found"))
  {
  }
}
