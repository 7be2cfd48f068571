/**
 * The request handlers of the service and the process-wide debug window
 * (app.py:9-41, app.py:144-205).
 *
 * `debug_enabled_until` is one global timestamp. The global error handler is
 * its only writer: every exception that escapes a handler sets it to
 * `now + 45`. /debug_status reads it and, while `now` is before it, shows the
 * debug secret and the flag. Wall-clock time is the parameter `now`.
 */
module Service {
  import opened Wrappers
  import opened Calculator

  /** DEBUG_WINDOW_SECONDS (app.py:14). */
  const DebugWindowSeconds: real := 45.0

  /** The value of `debug_enabled_until` when the process starts (app.py:17). */
  const InitialDebugEnabledUntil: real := 0.0

  /** FLAG and DEBUG_SECRET (app.py:10-11), fixed for the life of the process. */
  datatype Secrets = Secrets(flag: string, debugSecret: string)

  /** The requests of the core: /calc with its optional query parameters, and /debug_status. */
  datatype Request =
    | CalcRequest(a: Option<string>, b: Option<string>, op: Option<string>)
    | DebugStatusRequest

  /** What a response shows; HTML layout and JSON encoding are not modelled. */
  datatype Body<N> =
    | ErrorPage                                                  // "Something went wrong" (app.py:37-40)
    | CalcJson(record: CalcResult<N>)                            // app.py:176
    | DebugActivePage(debugSecret: string, flag: string, expiresAt: real)  // app.py:190-198
    | DebugOffPage                                               // app.py:200-205

  datatype Response<N> = Response(status: int, body: Body<N>)

  /** Whether a page displays the string `s` as one of the two secrets. */
  predicate Discloses<N>(body: Body<N>, s: string)
  {
    match body
    case DebugActivePage(secret, flag, _) => s == secret || s == flag
    case _ => false
  }

  /** The generic response of the error handler (app.py:37-41). */
  function ErrorResponse<N>(): (r: Response<N>)
    ensures r.status == 500
    ensures forall s :: !Discloses(r.body, s)
  {
    Response(500, ErrorPage)
  }

  /** Whether the debug window is open at `now` (app.py:188). */
  predicate IsActive(now: real, debugEnabledUntil: real)
  {
    now < debugEnabledUntil
  }

  /** The /debug_status handler (app.py:181-205): reads the window, never raises. */
  function DebugStatus<N>(secrets: Secrets, now: real, debugEnabledUntil: real): (r: Response<N>)
    ensures r.status == 200
    // Both secrets are on the page exactly while the window is open, and nothing else is.
    ensures forall s :: Discloses(r.body, s) <==>
              IsActive(now, debugEnabledUntil) && (s == secrets.debugSecret || s == secrets.flag)
    ensures IsActive(now, debugEnabledUntil) ==>
              r.body == DebugActivePage(secrets.debugSecret, secrets.flag, debugEnabledUntil)
    // Outside the window the page is one constant, whatever the secrets and the times are.
    ensures !IsActive(now, debugEnabledUntil) ==> r.body == DebugOffPage
  {
    if now < debugEnabledUntil then
      Response(200, DebugActivePage(secrets.debugSecret, secrets.flag, debugEnabledUntil))
    else
      Response(200, DebugOffPage)
  }

  /** A handler either returns its response or lets an exception propagate. */
  datatype Outcome<N> = Returned(response: Response<N>) | Raised(fault: Fault)

  /** Whether handling `req` raises, so that the error handler runs. */
  ghost predicate Raises<N>(fp: FloatOps<N>, req: Request)
  {
    req.CalcRequest? && !Accepts(fp, req.a, req.b, req.op)
  }

  /** Flask running the handler that `req` names, before any error handling. */
  function Dispatch<N>(fp: FloatOps<N>, secrets: Secrets, req: Request, now: real, debugEnabledUntil: real)
    : (o: Outcome<N>)
    ensures o.Raised? <==> Raises(fp, req)
    // Every response a handler returns itself is a 200.
    ensures o.Returned? ==> o.response.status == 200
    // A /calc that returns answers 200 with exactly the record Calc computed (app.py:176).
    ensures req.CalcRequest? && o.Returned? ==>
              && Calc(fp, req.a, req.b, req.op).Success?
              && o.response == Response(200, CalcJson(Calc(fp, req.a, req.b, req.op).value))
    // /debug_status always returns its page.
    ensures req.DebugStatusRequest? ==> o == Returned(DebugStatus(secrets, now, debugEnabledUntil))
  {
    match req
    case CalcRequest(a, b, op) =>
      (match Calc(fp, a, b, op)
       case Success(c) => Returned(Response(200, CalcJson(c)))
       case Failure(e) => Raised(e))
    case DebugStatusRequest => Returned(DebugStatus(secrets, now, debugEnabledUntil))
  }

  /** The response to one request and the value of `debug_enabled_until` after it. */
  datatype Served<N> = Served(response: Response<N>, debugEnabledUntil: real)

  /**
   * One request served through the global error handler: the specification
   * of App.Serve.
   */
  function Step<N>(fp: FloatOps<N>, secrets: Secrets, debugEnabledUntil: real, req: Request, now: real)
    : (s: Served<N>)
    // A raising request restarts the window at now + 45, whatever it was before
    // and whichever fault it was; any other request leaves the window alone.
    ensures Raises(fp, req) ==> s.debugEnabledUntil == now + DebugWindowSeconds
    ensures !Raises(fp, req) ==> s.debugEnabledUntil == debugEnabledUntil
    // The client sees a 500 exactly when the request raised, and then always the same response.
    ensures s.response.status == 500 <==> Raises(fp, req)
    ensures Raises(fp, req) ==> s.response == ErrorResponse()
    // Otherwise the handler's own response reaches the client unchanged.
    ensures !Raises(fp, req) ==> s.response == Dispatch(fp, secrets, req, now, debugEnabledUntil).response
    // In particular a successful /calc answers 200 with {a, b, op, result}.
    ensures req.CalcRequest? && !Raises(fp, req) ==>
              s.response == Response(200, CalcJson(Calc(fp, req.a, req.b, req.op).value))
    // /debug_status answers from the window as it stood when the request arrived.
    ensures req.DebugStatusRequest? ==> s.response == DebugStatus(secrets, now, debugEnabledUntil)
  {
    match Dispatch(fp, secrets, req, now, debugEnabledUntil)
    case Returned(r) => Served(r, debugEnabledUntil)
    case Raised(_) => Served(ErrorResponse(), now + DebugWindowSeconds)
  }

  /** The Flask application: its configuration and the global timestamp it mutates. */
  class App<N> {
    const fp: FloatOps<N>
    const secrets: Secrets
    var debugEnabledUntil: real

    constructor (fp: FloatOps<N>, secrets: Secrets)
      ensures this.fp == fp && this.secrets == secrets
      ensures debugEnabledUntil == InitialDebugEnabledUntil
    {
      this.fp := fp;
      this.secrets := secrets;
      debugEnabledUntil := InitialDebugEnabledUntil;
    }

    /** handle_exception (app.py:22-41): open the window and hide the fault from the client. */
    method HandleException(e: Fault, now: real) returns (r: Response<N>)
      modifies this`debugEnabledUntil
      ensures debugEnabledUntil == now + DebugWindowSeconds
      ensures r == ErrorResponse()
    {
      debugEnabledUntil := now + DebugWindowSeconds;
      r := ErrorResponse();
    }

    /** Serve one request at time `now`, routing any exception to HandleException. */
    method Serve(req: Request, now: real) returns (r: Response<N>)
      modifies this`debugEnabledUntil
      ensures Served(r, debugEnabledUntil) == Step(fp, secrets, old(debugEnabledUntil), req, now)
    {
      var outcome: Outcome<N> := Dispatch(fp, secrets, req, now, debugEnabledUntil);
      match outcome
      case Returned(resp) =>
        r := resp;
      case Raised(e) =>
        r := HandleException(e, now);
    }
  }

  /**
   * The documented exploit: a division by zero at time t, then /debug_status
   * at a time t2 inside the window shows both secrets. Requests carry no
   * client identity, so the second request may come from anyone.
   */
  method DivisionByZeroOpensWindow<N>(fp: FloatOps<N>, secrets: Secrets, t: real, t2: real)
    returns (first: Response<N>, second: Response<N>)
    requires fp.parse("10").Some? && fp.parse("0").Some? && fp.isZero(fp.parse("0").value)
    requires t <= t2 < t + DebugWindowSeconds
    ensures first == ErrorResponse()
    ensures second == Response(200, DebugActivePage(secrets.debugSecret, secrets.flag, t + DebugWindowSeconds))
  {
    var app := new App(fp, secrets);
    first := app.Serve(CalcRequest(Some("10"), Some("0"), Some("div")), t);
    second := app.Serve(DebugStatusRequest, t2);
  }
}
