# Mishandled-exception debug window, modelled in Dafny

This project models the core of a small Flask service (`app.py`) that ties
its error handling to a security state change. The service keeps one
process-wide timestamp, `debug_enabled_until`, which starts at 0. The global
error handler catches every exception that escapes a request handler. It then
sets the timestamp to `now + 45` and returns a fixed 500 page. While `now` is
before the timestamp, `/debug_status` shows the debug secret and the flag.
Otherwise it shows a constant "OFF" page. The `/calc` endpoint is the trigger.
It raises on a missing operand, an operand that does not parse as a float, an
unknown operation, and a division by zero.

Files:

- `wrappers.dfy` (module `Wrappers`): `Option` and `Result`.
- `calc.dfy` (module `Calculator`): `/calc`, with its four fault kinds. Float
  parsing and arithmetic are the fields of a `FloatOps<N>` value, so every
  property holds for any number type and any operations.
- `service.dfy` (module `Service`): the secrets, the requests, the response
  pages and `/debug_status`. It also holds `Step`, which serves one request
  through the error handler. The class `App` holds the mutable timestamp; its
  `HandleException` and `Serve` methods update it.
- `trace.dfy` (module `Trace`): requests served one after another. `Run`
  applies `Step` to each request of a trace in order. The lemmas describe how
  the shared window behaves across requests.

Wall-clock time is the parameter `now`, a `real`, because `time.time()`
returns a float.

The routes are `/calc` and `/debug_status`. `/debug_status` shows the flag
next to the debug secret, with no token check. The active page shows the
expiry time.

A fault always overwrites the window with `now + 45`. It never shortens the
window only because the clock does not go backwards (`Trace.WindowNeverShrinks`).

## Model

| member | source | states |
|---|---|---|
| `Calculator.OpOrDefault` | app.py:155 | the operation is the given `op`, or `"add"` when `op` is absent |
| `Calculator.Calc` | app.py:153-176 | succeeds iff both operands are present and parse, `op` is add/sub/mul/div, and it is not div with a zero divisor. A missing operand faults before any parsing. `a` is parsed before `b`. Unknown `op` and zero divisor each give their own fault. A success echoes the parsed operands and the defaulted `op`, and its result is that operator applied to them |
| `Service.ErrorResponse` | app.py:37-41 | the error response is status 500 and discloses no secret |
| `Service.DebugStatus` | app.py:181-205 | always status 200. It discloses exactly the debug secret and the flag iff `now < debug_enabled_until`, and otherwise returns one constant OFF page that depends on neither secret |
| `Service.Dispatch` | app.py:144-205 | a handler raises iff the request is a `/calc` that `Calc` rejects. A returning `/calc` answers 200 with exactly the record `Calc` computed. `/debug_status` never raises and returns the `DebugStatus` page |
| `Service.Step` | app.py:21-41 | a raising request sets the window to `now + 45` whatever it was, and gets the same 500 response whatever the fault. Any other request leaves the window unchanged and its handler's response passes through unchanged, so a successful `/calc` answers 200 with `{a, b, op, result}`. The status is 500 iff the request raised |
| `Service.App.constructor` | app.py:17 | the timestamp starts at 0 |
| `Service.App.HandleException` | app.py:22-41 | the timestamp becomes `now + 45` and the response is the fixed 500 response, whatever the exception |
| `Service.App.Serve` | app.py:21-41 | the response and the new timestamp are those of `Step` on the old timestamp; the error handler is the only writer |
| `Service.DivisionByZeroOpensWindow` | app.py:164-198 | `a=10&b=0&op=div` at time t gives the 500 response, and a later `/debug_status` before t + 45 shows both secrets |
| `Trace.Run` | app.py:16-17 | the responses in order and the window after the trace, one `Step` per request on the shared timestamp; one response per request |
| `Trace.WindowIsSetByLastFault` | app.py:29-30 | after any trace the window is 45 seconds after the last raising request, or unchanged when none raised |
| `Trace.ResponseAt` | app.py:16-17 | the k-th response is the k-th request served against the window left by all earlier requests, so every request sees every earlier fault |
| `Trace.WindowAfterFault` | app.py:29-30 | a fault at t followed only by requests that do not raise leaves the window at t + 45, whatever earlier faults set |
| `Trace.DebugStatusAfterFault` | app.py:187-198 | after a fault at t and no further fault, `/debug_status` at `now` shows both secrets when `now < t + 45` and the OFF page when `now >= t + 45` |
| `Trace.NoFaultNoDisclosure` | app.py:17 | from the initial 0, with no raising request, `/debug_status` at any `now >= 0` shows the OFF page |
| `Trace.OnlyFaultsMoveWindow` | app.py:29-30 | the window moves away from its starting value only if some request in the trace raised |
| `Trace.WindowNeverShrinks` | app.py:30 | with a clock that starts at 0 or later and never goes backwards, no request shortens the window |

## Left out

- The HTML templates and the static pages `/`, `/hint` and `/docs` (app.py:45-140): presentation only. Pages are datatype values, not HTML text.
- Flask routing and the `@app.errorhandler` registration: `Service.App.Serve` is the explicit wrapper instead. Flask also passes routing errors, such as 404 for an unknown path, to a handler registered for `Exception`. Those requests are not modelled.
- Traceback formatting and printing (app.py:33-34): write-only output to stdout.
- Loading `FLAG` and `DEBUG_SECRET` from the environment, and the random default from `secrets.token_hex` (app.py:10-11): the secrets are a `Secrets` value given to the constructor.
- `app.run` and the `PORT` parsing (app.py:209-211): process start-up.
- Python `float()` parsing and IEEE-754 arithmetic (app.py:161-172): they are the uninterpreted fields of `FloatOps`. Only whether the divisor is zero is observed.
- `time.time()` and the `time.ctime` formatting (app.py:30, app.py:187, app.py:196): the time is a parameter, and the active page carries the raw timestamp.
- `jsonify` (app.py:176): the JSON object is the `CalcResult` value.
- Concurrent requests racing on the global timestamp (last writer wins): requests are served as a sequential trace.
