/**
 * The JSON-RPC 2.0 request vocabulary: the Request object of section 4 of
 * the JSON-RPC 2.0 Specification and the Notification of section 4.1, here
 * called a signal (a request without an id).
 */
module Request {
  import opened JsValues

  /** A request id: absent, a number or a string (never `null`). */
  predicate IsId(a: Value)
    ensures IsId(a) <==> TypeOf(a) == "number" || TypeOf(a) == "string" || TypeOf(a) == "undefined"
  {
    a.Num? || a.Str? || a.Undefined?
  }

  /** `isRequest`: only an object tagged `'2.0'` with a string method and a valid id passes. */
  predicate IsRequest(a: Value)
    ensures IsRequest(a) <==>
      a.Obj? && Get(a, "jsonrpc") == Str("2.0") && TypeOf(Get(a, "method")) == "string" && IsId(Get(a, "id"))
  {
    Truthy(a) && Get(a, "jsonrpc") == Str("2.0") && Get(a, "method").Str? && IsId(Get(a, "id"))
  }

  /** `isSignal`: a request whose id reads as `undefined`. */
  predicate IsSignal(a: Value)
    ensures IsSignal(a) <==> IsRequest(a) && TypeOf(Get(a, "id")) == "undefined"
  {
    IsRequest(a) && Get(a, "id").Undefined?
  }

  /**
   * What `isRequest` rejects, and the one place it differs from the
   * response-side id check: a `null` id makes a request invalid.
   */
  lemma RequestRejects(a: Value)
    ensures !Truthy(a) ==> !IsRequest(a)
    ensures Truthy(a) && Get(a, "jsonrpc") != Str("2.0") ==> !IsRequest(a)
    ensures Truthy(a) && !Get(a, "method").Str? ==> !IsRequest(a)
    ensures Truthy(a) && Get(a, "id").Null? ==> !IsRequest(a)
    ensures IsRequest(a) ==> a.Obj?
  {
  }

  /** `{jsonrpc: '2.0', method, params?, id?}`, leaving out undefined `params` and `id`. */
  function MakeRequest(methodName: string, params: Value, id: Value): (r: Value)
    requires IsId(id)
    ensures IsRequest(r)
    ensures IsSignal(r) <==> id.Undefined?
    ensures Get(r, "method") == Str(methodName) && Get(r, "params") == params && Get(r, "id") == id
    ensures r.Obj? && ("params" in r.own <==> !params.Undefined?) && ("id" in r.own <==> !id.Undefined?)
  {
    var base := map["jsonrpc" := Str("2.0"), "method" := Str(methodName)];
    var withParams := if params.Undefined? then base else base["params" := params];
    PlainObject(if id.Undefined? then withParams else withParams["id" := id])
  }
}
