/**
 * The route guards of `app/utils/decorators.py`. Each either raises before
 * the wrapped handler is called, or calls it once and returns what it
 * produced, awaiting it first when it is awaitable. `Ran(result)` records
 * that the handler was invoked; `Raised` that it was not.
 */
module Decorators {
  import opened Wrappers
  import opened Security
  import opened Models
  import opened AuthMiddleware

  /** The guard's allowlist; matched exactly. */
  const PublicRoutes: seq<string> := ["/auth/login", "/auth/register", "/openapi.json", "/docs", "/redoc"]

  /** What calling a handler gives back: a value, or an awaitable that completes with one. */
  datatype Call<R> = Immediate(value: R) | Awaitable(value: R)

  /** The outcome of a guarded call. */
  datatype Guarded<R> = Ran(result: R) | Raised(status: int, detail: string)

  /** The request as the guards see it: its path and its state. */
  datatype Request = Request(path: string, state: Attached)

  /** A positional argument of the wrapped handler. */
  datatype Arg = RequestArg(request: Request) | OtherArg

  /** `inspect.isawaitable(result)` and `await`: either way the guard returns the value. */
  function Resolve<R>(c: Call<R>): R
  {
    match c
    case Immediate(v) => v
    case Awaitable(v) => v
  }

  /** `getattr(request.state, "user", None)`. */
  function StateUser(state: Attached): Option<User>
  {
    if state.Attached? then state.user else None
  }

  /** `login_required`: only checks that the gate assigned `request.state.user`. */
  function LoginRequired<R>(request: Request, handler: Request -> Call<R>): (g: Guarded<R>)
    ensures g.Ran? <==> request.state.Attached?
    ensures g.Ran? ==> g.result == Resolve(handler(request))
    ensures g.Raised? ==> g == Raised(401, "Authentication required here")
  {
    if !request.state.Attached? then Raised(401, "Authentication required here")
    else Ran(Resolve(handler(request)))
  }

  /** `next((a for a in args if isinstance(a, Request)), None)`. */
  function FirstRequest(args: seq<Arg>): (r: Option<Request>)
    ensures r.None? <==> forall i :: 0 <= i < |args| ==> args[i].OtherArg?
    ensures r.Some? ==> exists i :: 0 <= i < |args| && args[i] == RequestArg(r.value)
                                    && forall j :: 0 <= j < i ==> args[j].OtherArg?
  {
    if args == [] then None
    else if args[0].RequestArg? then Some(args[0].request)
    else
      var r := FirstRequest(args[1..]);
      assert forall i :: 0 < i < |args| ==> args[i] == args[1..][i - 1];
      r
  }

  /** `kwargs.get("request") or next(...)`: the keyword argument wins. */
  function FindRequest(kwRequest: Option<Request>, args: seq<Arg>): Option<Request>
  {
    if kwRequest.Some? then kwRequest else FirstRequest(args)
  }

  /**
   * `admin_required`. The handler receives the same arguments the wrapper got.
   * The checks, in order: a request must be found (else 500); an exact public
   * route skips the rest; the state must carry a user (else 401); that user's
   * stored role must be admin (else 403).
   */
  function AdminRequired<R>(kwRequest: Option<Request>, args: seq<Arg>,
                            handler: (Option<Request>, seq<Arg>) -> Call<R>): (g: Guarded<R>)
    ensures g.Ran? ==> g.result == Resolve(handler(kwRequest, args))
    ensures var request := FindRequest(kwRequest, args);
      && (request.None? ==> g == Raised(500, "Request object not found"))
      && (request.Some? && request.value.path in PublicRoutes ==> g.Ran?)
      && (request.Some? && request.value.path !in PublicRoutes ==>
            var user := StateUser(request.value.state);
            && (user.None? ==> g == Raised(401, "Not authenticated"))
            && (user.Some? && user.value.role != AdminRole ==> g == Raised(403, "Admin access required"))
            && (user.Some? && user.value.role == AdminRole ==> g.Ran?))
  {
    var request := FindRequest(kwRequest, args);
    if request.None? then Raised(500, "Request object not found")
    else if request.value.path in PublicRoutes then Ran(Resolve(handler(kwRequest, args)))
    else
      var user := StateUser(request.value.state);
      if user.None? then Raised(401, "Not authenticated")
      else if user.value.role != AdminRole then Raised(403, "Admin access required")
      else Ran(Resolve(handler(kwRequest, args)))
  }

  /** The handler behind `admin_required` runs exactly for public routes and for admins. */
  lemma AdminRequiredInvokesIff<R>(kwRequest: Option<Request>, args: seq<Arg>,
                                   handler: (Option<Request>, seq<Arg>) -> Call<R>)
    ensures var request := FindRequest(kwRequest, args);
      AdminRequired(kwRequest, args, handler).Ran? <==>
        request.Some? &&
        (request.value.path in PublicRoutes ||
         (StateUser(request.value.state).Some? && StateUser(request.value.state).value.role == AdminRole))
  {
  }

  /** Every exact public route also starts with a public prefix, so the gate lets it through. */
  lemma PublicRoutesArePublicPaths(path: string)
    requires path in PublicRoutes
    ensures IsPublicPath(path)
  {
    var i :| 0 <= i < |PublicRoutes| && PublicRoutes[i] == path;
    assert PublicPrefixes[i] <= path;
  }

  /**
   * `login_required` behind the gate: on a path the gate checks, the handler
   * runs exactly when the request authenticates; on a public-prefix path the
   * gate assigns no user, so the guard always refuses with 401.
   */
  lemma LoginRequiredBehindGate<R>(path: string, authorization: Option<string>,
                                   verifyJwt: string -> Option<Payload>, users: map<int, User>,
                                   handler: Request -> Call<R>)
    ensures var d := Dispatch(path, authorization, verifyJwt, users,
                              (s: Attached) => LoginRequired(Request(path, s), handler));
      && (IsPublicPath(path) ==> d.response == Downstream(Raised(401, "Authentication required here")))
      && (!IsPublicPath(path) ==>
            (d.response.Downstream? && d.response.response.Ran? <==>
               exists u :: AuthenticatesAs(authorization, verifyJwt, users, u)))
  {
  }

  /**
   * `admin_required` behind the gate, with the request passed by keyword: on a
   * path the gate checks, the handler runs exactly for an authenticated admin.
   * A path that only starts with a public prefix (such as "/docs/x") passes the
   * gate unchecked and is then refused with 401 by the guard.
   */
  lemma AdminRequiredBehindGate<R>(path: string, authorization: Option<string>,
                                   verifyJwt: string -> Option<Payload>, users: map<int, User>,
                                   handler: (Option<Request>, seq<Arg>) -> Call<R>)
    ensures var d := Dispatch(path, authorization, verifyJwt, users,
                              (s: Attached) => AdminRequired(Some(Request(path, s)), [], handler));
      && (!IsPublicPath(path) ==>
            (d.response.Downstream? && d.response.response.Ran? <==>
               exists u :: AuthenticatesAs(authorization, verifyJwt, users, u) && u.role == AdminRole))
      && (IsPublicPath(path) && path !in PublicRoutes ==>
            d.response == Downstream(Raised(401, "Not authenticated")))
  {
    if !IsPublicPath(path) {
      if path in PublicRoutes {
        PublicRoutesArePublicPaths(path);
      }
      var d := Dispatch(path, authorization, verifyJwt, users,
                        (s: Attached) => AdminRequired(Some(Request(path, s)), [], handler));
      if d.response.Downstream? {
        var u := d.state.user.value;
        assert AuthenticatesAs(authorization, verifyJwt, users, u);
        forall u' | AuthenticatesAs(authorization, verifyJwt, users, u') ensures u' == u { }
      }
    }
  }
}
