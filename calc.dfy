/**
 * The /calc endpoint (app.py:144-176): validates the query parameters `a`, `b`
 * and `op` and either returns a record of the operands, the operation and the
 * result, or raises an exception that it deliberately leaves uncaught.
 *
 * Python's float parsing and IEEE-754 arithmetic are not modelled: they are the
 * fields of a FloatOps value, so every property below holds whatever the number
 * type and its operations are. Only "the divisor is zero" is observed.
 */
module Calculator {
  import opened Wrappers

  /** The numeric environment: `float(s)` and the four operators of Python floats. */
  datatype FloatOps<!N> = FloatOps(
    parse: string -> Option<N>,    // float(s); None where Python raises ValueError
    isZero: N -> bool,             // b == 0.0 (true for 0.0 and -0.0)
    add: (N, N) -> N,
    sub: (N, N) -> N,
    mul: (N, N) -> N,
    div: (N, N) -> N               // a / b, used only where b is not zero
  )

  /** The exceptions that /calc lets escape to the global error handler. */
  datatype Fault =
    | MissingParameter              // ValueError: a or b absent (app.py:157-159)
    | InvalidNumber(text: string)   // ValueError from float(text) (app.py:161-162)
    | UnsupportedOperation(op: string)  // ValueError for any other op (app.py:173-174)
    | DivisionByZero                // ZeroDivisionError from a / b (app.py:170-172)

  /** The JSON object returned on success (app.py:176). */
  datatype CalcResult<N> = CalcResult(a: N, b: N, op: string, result: N)

  const DefaultOp: string := "add"
  const SupportedOps: set<string> := {"add", "sub", "mul", "div"}

  /** `request.args.get("op", "add")` (app.py:155). */
  function OpOrDefault(op: Option<string>): (o: string)
    ensures op.Some? ==> o == op.value
    ensures op.None? ==> o == DefaultOp
  {
    match op
    case Some(s) => s
    case None => DefaultOp
  }

  /**
   * The inputs /calc accepts: both operands present and parsing, a supported
   * operation, and no division by a zero divisor.
   */
  ghost predicate Accepts<N>(fp: FloatOps<N>, a: Option<string>, b: Option<string>, op: Option<string>)
  {
    && a.Some? && b.Some?
    && fp.parse(a.value).Some? && fp.parse(b.value).Some?
    && OpOrDefault(op) in SupportedOps
    && !(OpOrDefault(op) == "div" && fp.isZero(fp.parse(b.value).value))
  }

  /** The /calc handler (app.py:153-176). */
  function Calc<N>(fp: FloatOps<N>, a: Option<string>, b: Option<string>, op: Option<string>)
    : (r: Result<CalcResult<N>, Fault>)
    // It succeeds exactly on the accepted inputs; every other input raises.
    ensures r.Success? <==> Accepts(fp, a, b, op)
    // Presence is checked first: a missing operand faults whatever else is given.
    ensures a.None? || b.None? ==> r == Failure(MissingParameter)
    // Then a is parsed before b, and both before the operation is looked at.
    ensures a.Some? && b.Some? && fp.parse(a.value).None? ==> r == Failure(InvalidNumber(a.value))
    ensures a.Some? && b.Some? && fp.parse(a.value).Some? && fp.parse(b.value).None? ==>
              r == Failure(InvalidNumber(b.value))
    // Once both operands parse, the operation decides the fault.
    ensures a.Some? && b.Some? && fp.parse(a.value).Some? && fp.parse(b.value).Some? ==>
              && (OpOrDefault(op) !in SupportedOps <==> r == Failure(UnsupportedOperation(OpOrDefault(op))))
              && (r == Failure(DivisionByZero) <==>
                    OpOrDefault(op) == "div" && fp.isZero(fp.parse(b.value).value))
    // A success echoes the parsed operands and the (defaulted) operation.
    ensures r.Success? ==>
              && r.value.a == fp.parse(a.value).value
              && r.value.b == fp.parse(b.value).value
              && r.value.op == OpOrDefault(op)
    // ... and its result is the named operator applied to them.
    ensures r.Success? && r.value.op == "add" ==> r.value.result == fp.add(r.value.a, r.value.b)
    ensures r.Success? && r.value.op == "sub" ==> r.value.result == fp.sub(r.value.a, r.value.b)
    ensures r.Success? && r.value.op == "mul" ==> r.value.result == fp.mul(r.value.a, r.value.b)
    ensures r.Success? && r.value.op == "div" ==>
              !fp.isZero(r.value.b) && r.value.result == fp.div(r.value.a, r.value.b)
  {
    if a.None? || b.None? then Failure(MissingParameter)
    else
      match fp.parse(a.value)
      case None => Failure(InvalidNumber(a.value))
      case Some(x) =>
        match fp.parse(b.value)
        case None => Failure(InvalidNumber(b.value))
        case Some(y) =>
          var o := OpOrDefault(op);
          if o == "add" then Success(CalcResult(x, y, o, fp.add(x, y)))
          else if o == "sub" then Success(CalcResult(x, y, o, fp.sub(x, y)))
          else if o == "mul" then Success(CalcResult(x, y, o, fp.mul(x, y)))
          else if o == "div" then
            if fp.isZero(y) then Failure(DivisionByZero)
            else Success(CalcResult(x, y, o, fp.div(x, y)))
          else Failure(UnsupportedOperation(o))
  }
}
