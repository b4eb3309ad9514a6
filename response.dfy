/**
 * The JSON-RPC 2.0 response vocabulary: the Response object of section 5 of
 * the JSON-RPC 2.0 Specification (a Success carrying `result` or a Failure
 * carrying `error`) and the Error object of section 5.1 with its reserved
 * codes. Everything here is a pure predicate or constructor over values.
 */
module Response {
  import opened Wrappers
  import opened JsValues

  const PARSE_ERROR := -32700
  const INVALID_REQUEST_ERROR := -32600
  const METHOD_NOT_FOUND_ERROR := -32601
  const INVALID_PARAMS_ERROR := -32602
  const INTERNAL_ERROR := -32603

  /** A response id: a number, a string or `null`. */
  predicate IsId(a: Value)
    ensures IsId(a) <==> TypeOf(a) == "number" || TypeOf(a) == "string" || a == Null
    ensures IsId(a) ==> !a.Undefined?
  {
    a.Num? || a.Str? || a.Null?
  }

  /** `isFailureError`: a truthy value with a numeric `code` and a string `message`. */
  predicate IsFailureError(a: Value)
    ensures IsFailureError(a) <==>
      Truthy(a) && TypeOf(Get(a, "code")) == "number" && TypeOf(Get(a, "message")) == "string"
  {
    Truthy(a) && Get(a, "code").Num? && Get(a, "message").Str?
  }

  /** `isSuccess`: an object tagged `'2.0'` that has a `result`, own or inherited, and a response id. */
  predicate IsSuccess(a: Value)
    ensures IsSuccess(a) ==> a.Obj? && Get(a, "jsonrpc") == Str("2.0") && ("result" in a.own || "result" in a.inherited) && IsId(Get(a, "id"))
  {
    Truthy(a) && Get(a, "jsonrpc") == Str("2.0") && HasProperty(a, "result") && IsId(Get(a, "id"))
  }

  /** `isFailure`: an object tagged `'2.0'` whose `error` is a FailureError; its id is not checked. */
  predicate IsFailure(a: Value)
    ensures IsFailure(a) ==> a.Obj? && Get(a, "jsonrpc") == Str("2.0") && IsFailureError(Get(a, "error"))
  {
    Truthy(a) && Get(a, "jsonrpc") == Str("2.0") && IsFailureError(Get(a, "error"))
  }

  predicate IsResponse(a: Value)
    ensures IsResponse(a) ==> a.Obj? && Get(a, "jsonrpc") == Str("2.0")
  {
    IsSuccess(a) || IsFailure(a)
  }

  /**
   * Only an object can be a FailureError: no primitive, array or function
   * has both a numeric `code` and a string `message`.
   */
  lemma FailureErrorIsObject(a: Value)
    ensures IsFailureError(a) <==>
              a.Obj? && Get(a, "code").Num? && Get(a, "message").Str?
  {
  }

  /** A response is recognised only on an object tagged "2.0". */
  lemma ResponseIsTaggedObject(a: Value)
    ensures IsResponse(a) ==> a.Obj? && Get(a, "jsonrpc") == Str("2.0")
    ensures IsSuccess(a) ==> IsId(Get(a, "id"))
  {
  }

  /** The id a constructor stores: an omitted id defaults to `null`. */
  function ResponseId(id: Value): (r: Value)
    requires id.Undefined? || IsId(id)
    ensures IsId(r)
  {
    if id.Undefined? then Null else id
  }

  function MakeSuccess(result: Value, id: Value): (r: Value)
    requires id.Undefined? || IsId(id)
    ensures IsSuccess(r) && IsResponse(r)
    ensures Get(r, "result") == result && Get(r, "id") == ResponseId(id)
    ensures !IsFailure(r)
  {
    PlainObject(map["jsonrpc" := Str("2.0"), "result" := result, "id" := ResponseId(id)])
  }

  function MakeFailure(error: Value, id: Value): (r: Value)
    requires id.Undefined? || IsId(id)
    ensures r.Obj? && (IsFailure(r) <==> IsFailureError(error))
    ensures Get(r, "error") == error && Get(r, "id") == ResponseId(id)
    ensures !IsSuccess(r)
  {
    PlainObject(map["jsonrpc" := Str("2.0"), "error" := error, "id" := ResponseId(id)])
  }

  /** `{code, message, data}`, where an undefined `data` is left out entirely. */
  function MakeFailureError(code: int, message: string, data: Value): (r: Value)
    ensures IsFailureError(r)
    ensures Get(r, "code") == Num(code) && Get(r, "message") == Str(message)
    ensures Get(r, "data") == data
    ensures r.Obj? && ("data" in r.own <==> !data.Undefined?)
    ensures r.own.Keys <= {"code", "message", "data"} && r.inherited == map[]
  {
    var base := map["code" := Num(code), "message" := Str(message)];
    PlainObject(if data.Undefined? then base else base["data" := data])
  }

  /** A factory `(data?, message = defaultMessage) => makeFailureError(code, message, data)`. */
  function BuildFailureErrorFactory(code: int, defaultMessage: string): (f: (Value, Option<string>) -> Value)
    ensures forall data, message :: IsFailureError(f(data, message)) && Get(f(data, message), "code") == Num(code)
  {
    (data: Value, message: Option<string>) =>
      MakeFailureError(code, if message.Some? then message.value else defaultMessage, data)
  }

  /** A validator `e => isFailureError(e) && e.code === code`. */
  function BuildFailureErrorValidatorWithCode(code: int): (v: Value -> bool)
    ensures forall e :: v(e) ==> IsFailureError(e)
  {
    (e: Value) => IsFailureError(e) && Get(e, "code") == Num(code)
  }

  /** The five reserved errors of section 5.1. */
  datatype Reserved = ParseError | InvalidRequest | MethodNotFound | InvalidParams | InternalError

  function Code(k: Reserved): int {
    match k
    case ParseError => PARSE_ERROR
    case InvalidRequest => INVALID_REQUEST_ERROR
    case MethodNotFound => METHOD_NOT_FOUND_ERROR
    case InvalidParams => INVALID_PARAMS_ERROR
    case InternalError => INTERNAL_ERROR
  }

  function DefaultMessage(k: Reserved): string {
    match k
    case ParseError => "Parse error"
    case InvalidRequest => "Invalid request"
    case MethodNotFound => "Method not found"
    case InvalidParams => "Invalid params"
    case InternalError => "Internal error"
  }

  /** `makeParseError`, ..., `makeInternalError`. */
  function Factory(k: Reserved): (Value, Option<string>) -> Value {
    BuildFailureErrorFactory(Code(k), DefaultMessage(k))
  }

  /** `isParseError`, ..., `isInternalError`. */
  function Validator(k: Reserved): Value -> bool {
    BuildFailureErrorValidatorWithCode(Code(k))
  }

  /**
   * Each factory yields its reserved code, its default message unless one is
   * given, and the data it was given; its result passes exactly its own validator.
   */
  lemma FactoryYields(k: Reserved, data: Value, message: Option<string>)
    ensures var e := Factory(k)(data, message);
      && IsFailureError(e)
      && Get(e, "code") == Num(Code(k))
      && Get(e, "message") == Str(if message.Some? then message.value else DefaultMessage(k))
      && Get(e, "data") == data
      && forall k' :: Validator(k')(e) <==> k' == k
  {
    var e := Factory(k)(data, message);
    assert e == MakeFailureError(Code(k), if message.Some? then message.value else DefaultMessage(k), data);
  }

  /** A value passes a validator iff it is a FailureError with that code; no value passes two. */
  lemma ValidatorsExclusive(k1: Reserved, k2: Reserved, e: Value)
    ensures Validator(k1)(e) <==> IsFailureError(e) && Get(e, "code") == Num(Code(k1))
    ensures Validator(k1)(e) && Validator(k2)(e) ==> k1 == k2
  {
  }

  /** `makeInternalError(data)` with its default message. */
  function InternalErrorWith(data: Value): Value {
    Factory(InternalError)(data, None)
  }

  /** The `data` for an exception-like object: its `name`, then every own property but `stack`. */
  function ExceptionData(error: Value): (d: Value)
    requires error.Obj?
    ensures d.Obj? && d.own.Keys == {"name"} + (error.own.Keys - {"stack"})
    ensures Get(d, "name") == Get(error, "name")
    ensures forall k :: k in error.own && k != "stack" ==> Get(d, k) == error.own[k]
  {
    PlainObject(map["name" := Get(error, "name")] + (error.own - {"stack"}))
  }

  /**
   * `makeFailureErrorFrom` as written. Because `typeof null === 'object'`,
   * a thrown `null` reaches the `error.stack` read, which throws a TypeError.
   */
  function MakeFailureErrorFromAsWritten(error: Value): (r: Result<Value, Value>)
    ensures r.Err? <==> error.Null?
    ensures r.Ok? ==> IsFailureError(r.value)
  {
    if IsFailureError(error) then
      Ok(MakeFailureError(Get(error, "code").n, Get(error, "message").s, Get(error, "data")))
    else if TypeOf(error) == "object" && error.Null? then
      Err(ErrorObject("TypeError", "Cannot read properties of null (reading 'stack')"))
    else if TypeOf(error) == "object" && Truthy(Get(error, "stack")) then
      Ok(InternalErrorWith(ExceptionData(error)))
    else
      Ok(InternalErrorWith(error))
  }

  /** The mismatch: normalising a thrown `null` fails instead of wrapping it. */
  lemma MakeFailureErrorFromNullThrows()
    ensures MakeFailureErrorFromAsWritten(Null).Err?
    ensures MakeFailureErrorFrom(Null) == InternalErrorWith(Null)
  {
  }

  /**
   * `makeFailureErrorFrom` as evidently intended: every thrown value that is
   * neither a FailureError nor exception-like, `null` included, becomes the
   * `data` of a generic internal error. On every other input it agrees with
   * the code as written.
   */
  function MakeFailureErrorFrom(error: Value): (r: Value)
    ensures IsFailureError(r)
    ensures !error.Null? ==> MakeFailureErrorFromAsWritten(error) == Ok(r)
  {
    if IsFailureError(error) then
      MakeFailureError(Get(error, "code").n, Get(error, "message").s, Get(error, "data"))
    else if error.Obj? && Truthy(Get(error, "stack")) then
      InternalErrorWith(ExceptionData(error))
    else
      InternalErrorWith(error)
  }

  /** A FailureError passes through with equal code, message and data. */
  lemma FromFailureErrorPreserves(e: Value)
    requires IsFailureError(e)
    ensures var r := MakeFailureErrorFrom(e);
      Get(r, "code") == Get(e, "code") && Get(r, "message") == Get(e, "message")
      && Get(r, "data") == Get(e, "data")
  {
  }

  /** An exception-like object becomes an internal error whose data holds its name and own properties but not its stack. */
  lemma FromExceptionWraps(e: Value)
    requires e.Obj? && !IsFailureError(e) && Truthy(Get(e, "stack"))
    ensures var r := MakeFailureErrorFrom(e);
      && Validator(InternalError)(r)
      && Get(r, "message") == Str("Internal error")
      && Get(r, "data") == ExceptionData(e)
      && "stack" !in Get(r, "data").own
  {
    FactoryYields(InternalError, ExceptionData(e), None);
  }

  /** Any other value, `null` included, is kept verbatim as the data of an internal error. */
  lemma FromOtherWraps(v: Value)
    requires !IsFailureError(v) && !(v.Obj? && Truthy(Get(v, "stack")))
    ensures var r := MakeFailureErrorFrom(v);
      && Validator(InternalError)(r)
      && Get(r, "message") == Str("Internal error")
      && Get(r, "data") == v
  {
    FactoryYields(InternalError, v, None);
  }

  /** Normalising is idempotent: a normalised error normalises to itself. */
  lemma {:induction false} MakeFailureErrorFromIdempotent(v: Value)
    ensures MakeFailureErrorFrom(MakeFailureErrorFrom(v)) == MakeFailureErrorFrom(v)
  {
    var r := MakeFailureErrorFrom(v);
    var r2 := MakeFailureErrorFrom(r);
    assert r2 == MakeFailureError(Get(r, "code").n, Get(r, "message").s, Get(r, "data"));
    assert r2.own.Keys == r.own.Keys;
  }
}
