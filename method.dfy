/** A registered method: a handler and its options, and how it is invoked. */
module Methods {
  import opened JsValues

  datatype Method = Method(handler: Value, options: Value)

  /** One call of `handler`, with `receiver` as `this` and `args` spread as its arguments. */
  datatype Invocation<R> = Invocation(handler: Value, receiver: R, args: seq<Value>)

  /**
   * The argument list `execute` spreads into the handler: `null` or
   * `undefined` params give no arguments, an array is spread as it is, and
   * any other value is the single argument.
   */
  function Arguments(params: Value): (args: seq<Value>)
    ensures params.Arr? ==> args == params.items
    ensures IsNullish(params) ==> args == []
    ensures !params.Arr? && !IsNullish(params) ==> args == [params]
  {
    if IsNullish(params) then [] else if params.Arr? then params.items else [params]
  }

  /** Wrapping the argument list in an array and normalising it again gives it back. */
  lemma ArgumentsOfArray(args: seq<Value>)
    ensures Arguments(Arr(args)) == args
  {
  }

  /** A single non-array argument passed bare or in a one-element array reaches the handler the same way. */
  lemma SingleArgumentEither(p: Value)
    requires !p.Arr? && !IsNullish(p)
    ensures Arguments(p) == Arguments(Arr([p]))
  {
  }

  /** `execute(rpc, params)`: the handler is invoked once, on `rpc`, with the normalised arguments. */
  function Execute<R>(m: Method, rpc: R, params: Value): (inv: Invocation<R>)
    ensures inv.handler == m.handler && inv.receiver == rpc && inv.args == Arguments(params)
  {
    Invocation(m.handler, rpc, Arguments(params))
  }
}
