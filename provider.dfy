/**
 * The Provider: the transaction and dispatch engine of the RPC runtime.
 *
 * Promises, timers and event emitters are replaced by explicit state: each
 * issued request id has a settlement `Status`, armed timeouts form a set,
 * signal listeners are lists of listener identities per name, and every
 * message handed to the dispatcher is appended to `outbox`. A timer firing
 * and a method handler completing are steps the environment takes
 * (`TimeoutStep`, `CompletionStep`).
 *
 * The first half of the module is the state machine on values; the class
 * `Provider` at the end holds the same state in fields and is proved to
 * follow it.
 */
module Providers {
  import opened Wrappers
  import opened JsValues
  import opened Messages
  import opened Methods
  import Response

  const MSG_RESOLVE := "resolve"
  const MSG_REJECT := "reject"
  const MSG_ERROR := "error"
  const TIMED_OUT := "transaction timed out"

  /** The own members every plain object inherits from `Object.prototype`. */
  const OBJECT_PROTOTYPE_KEYS: set<string> := {
    "constructor", "hasOwnProperty", "isPrototypeOf", "propertyIsEnumerable",
    "toLocaleString", "toString", "valueOf", "__proto__",
    "__defineGetter__", "__defineSetter__", "__lookupGetter__", "__lookupSetter__"
  }

  /** `createError(code, reason)`: a JSON-RPC error object without data. */
  function CreateError(code: int, reason: string): (e: Value)
    ensures Response.IsFailureError(e)
    ensures Get(e, "code") == Num(code) && Get(e, "message") == Str(reason)
  {
    Response.MakeFailureError(code, reason, Undefined)
  }

  datatype Status = Pending | Resolved(result: Value) | Rejected(reason: Value)

  /** A pending transaction; `armed` says whether a timeout was set for it. */
  datatype Transaction = Transaction(id: nat, armed: bool)

  /** Listener functions are compared by identity. */
  type ListenerId = nat

  /** What `onSignal` returns: disposing it removes exactly that registration. */
  datatype Disposable = Disposable(signal: string, listener: ListenerId)

  /** One call of a signal listener, with the payload and the transport context. */
  datatype Delivery = Delivery(listener: ListenerId, payload: Value, context: Value)

  /** A handler invoked for an inbound request whose result the provider still awaits. */
  datatype Running = Running(inboundId: Value, context: Value, call: Invocation<Provider>)

  /** How a handler's result settles: a value (or a promise resolving to one), or a throw (or rejection). */
  datatype Completion = Returned(result: Value) | Threw(reason: Value)

  /** The `options` of `request`: absent (or falsy), a bare number of milliseconds, or `{timeout?}`. */
  datatype Options = Absent | Number(ms: int) | Object(timeout: Option<int>)

  /** The `definition` of `method`: a `Method` instance, or any other value. */
  datatype Definition = MethodInstance(m: Method) | Plain(v: Value)

  datatype State = State(
    defaultTimeout: int,
    nextId: nat,
    methods: map<string, Method>,
    txs: map<nat, Transaction>,
    status: map<nat, Status>,
    timers: set<nat>,
    signals: map<string, seq<ListenerId>>,
    outbox: seq<Outbound>,
    errors: seq<Value>,
    deliveries: seq<Delivery>,
    running: map<nat, Running>,
    nextRun: nat)

  /** The outcome of `method`/`methods`: the new state and the exception thrown, if any. */
  datatype Step = Step(state: State, thrown: Option<Value>)

  /** Method names under `rpc.` are reserved. */
  predicate IsReservedName(name: string) {
    |name| >= 4 && name[..4] == "rpc."
  }

  /**
   * The bookkeeping the provider keeps: ids below `nextId` are exactly the
   * issued ones, the pending table holds exactly the unsettled ones, a
   * timer is armed exactly for pending transactions that asked for one, no
   * reserved name is registered and no listener list is empty.
   */
  ghost predicate Inv(s: State) {
    && (forall id :: id in s.txs ==> s.txs[id].id == id)
    && (forall id: nat :: id in s.status <==> id < s.nextId)
    && (forall id :: id in s.txs <==> id in s.status && s.status[id].Pending?)
    && (forall id :: id in s.timers <==> id in s.txs && s.txs[id].armed)
    && (forall n :: n in s.methods ==> !IsReservedName(n))
    && (forall n :: n in s.signals ==> s.signals[n] != [])
    && (forall r :: r in s.running ==> r < s.nextRun)
  }

  /** A new Provider: `timeout || 0` is the default timeout, and every table is empty. */
  function Initial(timeout: Option<int>): (s: State)
    ensures Inv(s)
  {
    State(if timeout.Some? then timeout.value else 0, 0, map[], map[], map[], {}, map[],
          [], [], [], map[], 0)
  }

  // ---------------------------------------------------------------------
  // Method table
  // ---------------------------------------------------------------------

  function ReservedNameError(name: string): Value {
    ErrorObject("TypeError", "\"" + name + "\" is a reserved method name")
  }

  /**
   * `method(name, definition)`: a definition that is neither a `Method` nor
   * a function is ignored, even under a reserved name; a reserved name then
   * throws; otherwise the definition is stored, a bare function wrapped as
   * `new Method(fn, {})`.
   */
  function DefineStep(s: State, name: string, definition: Definition): Step {
    var isMethod := definition.MethodInstance?;
    var isFunction := definition.Plain? && TypeOf(definition.v) == "function";
    if !isMethod && !isFunction then Step(s, None)
    else if IsReservedName(name) then Step(s, Some(ReservedNameError(name)))
    else
      var m := if isMethod then definition.m else Method(definition.v, PlainObject(map[]));
      Step(s.(methods := s.methods[name := m]), None)
  }

  /** The loop of `methods(...)`: each entry in order, stopping at the first that throws. */
  function DefineEach(s: State, entries: seq<(string, Definition)>): Step
    decreases |entries|
  {
    if entries == [] then Step(s, None)
    else
      var step := DefineStep(s, entries[0].0, entries[0].1);
      if step.thrown.Some? then step else DefineEach(step.state, entries[1..])
  }

  /** `methods(table)`, where a missing table (`None`) counts as `{}`. */
  function DefineAllStep(s: State, table: Option<seq<(string, Definition)>>): Step {
    if table.None? then Step(s, None) else DefineEach(s, table.value)
  }

  /** `hasMethod(name)` as it should be: the name has an own entry in the table. */
  predicate HasMethod(s: State, name: string) {
    name in s.methods
  }

  /** `hasMethod(name)` as written: `name in this._methods` also sees what the table inherits. */
  predicate HasMethodAsWritten(s: State, name: string) {
    name in s.methods || name in OBJECT_PROTOTYPE_KEYS
  }

  /** `removeMethod(name)`: deletes the entry if there is one (an inherited name has none to delete). */
  function RemoveMethodStep(s: State, name: string): State {
    if HasMethod(s, name) then s.(methods := s.methods - {name}) else s
  }

  // ---------------------------------------------------------------------
  // Signal listeners (the event emitter's registry)
  // ---------------------------------------------------------------------

  function Listeners(s: State, signal: string): seq<ListenerId> {
    if signal in s.signals then s.signals[signal] else []
  }

  /** `onSignal(signal, listener)`: appends the listener to those of `signal`. */
  function OnSignalStep(s: State, signal: string, listener: ListenerId): State {
    s.(signals := s.signals[signal := Listeners(s, signal) + [listener]])
  }

  /** Removes the most recently added occurrence of `l`, as `removeListener` does. */
  function RemoveLast(ls: seq<ListenerId>, l: ListenerId): seq<ListenerId>
    decreases |ls|
  {
    if ls == [] then []
    else if ls[|ls| - 1] == l then ls[..|ls| - 1]
    else RemoveLast(ls[..|ls| - 1], l) + [ls[|ls| - 1]]
  }

  /** `offSignal(signal, listener)`: removes one registration; a name left without listeners is dropped. */
  function OffSignalStep(s: State, signal: string, listener: ListenerId): State {
    if signal !in s.signals then s
    else
      var rest := RemoveLast(s.signals[signal], listener);
      if rest == [] then s.(signals := s.signals - {signal})
      else s.(signals := s.signals[signal := rest])
  }

  /**
   * `offAllSignals(signal?)` as written: it always passes one argument to
   * `removeAllListeners`, and the emitter clears every name only when
   * called with none. An absent `signal` arrives as `undefined`, which is
   * used as the key `"undefined"`.
   */
  function OffAllSignalsAsWritten(s: State, signal: Option<string>): State {
    var key := if signal.None? then "undefined" else signal.value;
    s.(signals := s.signals - {key})
  }

  /** `offAllSignals(signal?)` as intended: every listener of `signal`, or of every name when absent. */
  function OffAllSignalsStep(s: State, signal: Option<string>): State {
    if signal.None? then s.(signals := map[]) else s.(signals := s.signals - {signal.value})
  }

  // ---------------------------------------------------------------------
  // Outbound traffic
  // ---------------------------------------------------------------------

  /** The timeout `request` uses: a bare number is `{timeout: n}`, and a missing timeout falls back to the default. */
  function EffectiveTimeout(options: Options, defaultTimeout: int): int {
    match options
    case Absent => defaultTimeout
    case Number(ms) => ms
    case Object(timeout) => if timeout.Some? then timeout.value else defaultTimeout
  }

  /**
   * `request(method, params, options)`: takes the next id, records a pending
   * transaction under it, arms a timer when the effective timeout is
   * positive, and dispatches one `rpc` message carrying the id.
   */
  function RequestStep(s: State, name: string, params: Value, options: Options): State {
    var id := s.nextId;
    var armed := EffectiveTimeout(options, s.defaultTimeout) > 0;
    s.(nextId := id + 1,
       txs := s.txs[id := Transaction(id, armed)],
       status := s.status[id := Pending],
       timers := if armed then s.timers + {id} else s.timers,
       outbox := s.outbox + [Outbound(Message(Rpc, Num(id), name, params), Undefined)])
  }

  /** `signal(name, payload)`: dispatches one `signal` message, which carries no id. */
  function SignalStep(s: State, name: string, payload: Value): State {
    s.(outbox := s.outbox + [Outbound(Message(Signal, Undefined, name, payload), Undefined)])
  }

  /**
   * `_raiseError(reason, undefined, context)`: emits an INTERNAL_ERROR error
   * locally and dispatches it to the peer as an `internal` `error` message.
   */
  function RaiseErrorStep(s: State, reason: string, context: Value): State {
    var error := CreateError(Response.INTERNAL_ERROR, reason);
    s.(errors := s.errors + [error],
       outbox := s.outbox + [Outbound(Message(Internal, Undefined, MSG_ERROR, error), context)])
  }

  // ---------------------------------------------------------------------
  // Inbound traffic
  // ---------------------------------------------------------------------

  function Deliveries(ls: seq<ListenerId>, payload: Value, context: Value): (ds: seq<Delivery>)
    ensures |ds| == |ls|
    ensures forall i :: 0 <= i < |ls| ==> ds[i] == Delivery(ls[i], payload, context)
  {
    seq(|ls|, i requires 0 <= i < |ls| => Delivery(ls[i], payload, context))
  }

  /**
   * `_handleSignal`: with no listener under the signal's name and none under
   * `'signal'` it raises an error; otherwise the listeners under the name
   * are called, in order.
   */
  function HandleSignalStep(s: State, m: Message, context: Value): State {
    if |Listeners(s, "signal")| == 0 && |Listeners(s, m.name)| == 0 then
      RaiseErrorStep(s, "invalid signal " + m.name, context)
    else
      s.(deliveries := s.deliveries + Deliveries(Listeners(s, m.name), m.payload, context))
  }

  function MethodNotFound(name: string): Value {
    CreateError(Response.METHOD_NOT_FOUND_ERROR, "invalid method \"" + name + "\"")
  }

  /**
   * `_handelRequest`: an unknown method is answered at once with a
   * METHOD_NOT_FOUND `reject`; a known one is invoked through `execute` and
   * its answer awaited.
   */
  function HandleRequestStep(s: State, self: Provider, m: Message, context: Value): State {
    if m.name !in s.methods then
      s.(outbox := s.outbox + [Outbound(Message(Internal, m.id, MSG_REJECT, MethodNotFound(m.name)), context)])
    else
      s.(running := s.running[s.nextRun := Running(m.id, context, Execute(s.methods[m.name], self, m.payload))],
         nextRun := s.nextRun + 1)
  }

  /** `!id && id != 0`: loosely, `0`, `false` and `""` all equal 0. */
  predicate IdMissing(id: Value) {
    !Truthy(id) && !(id == Num(0) || id == Bool(false) || id == Str(""))
  }

  /** The pending-table key `_txs[id]` reads: the id's string form, when it is a canonical numeral. */
  function TxKey(id: Value): Option<nat> {
    ParseCanonicalNat(ToStr(id))
  }

  /** Settles a pending transaction and clears it: `resolve`/`reject`, then `_clearTransaction`. */
  function Settle(s: State, id: nat, outcome: Status): State
    requires id in s.txs
  {
    s.(status := s.status[id := outcome],
       timers := if s.txs[id].armed then s.timers - {id} else s.timers,
       txs := s.txs - {id})
  }

  function MissingIdReason(): string {
    "invalid internal message. message \"id\" is required"
  }

  function NoTransactionReason(id: Value): string {
    "no pending transaction with id " + ToStr(id)
  }

  /** The outcome a `resolve` or `reject` records for its transaction. */
  function ResponseOutcome(m: Message): Status {
    if m.name == MSG_RESOLVE then Resolved(m.payload) else Rejected(m.payload)
  }

  /**
   * The pending transaction a `resolve` or `reject` settles, or the reason
   * of the error raised instead: the id is missing, or names no pending
   * transaction.
   */
  function SettleTarget(s: State, id: Value): (r: Result<nat, string>)
    ensures r.Ok? ==> r.value in s.txs
  {
    if IdMissing(id) then Err(MissingIdReason())
    else
      var key := TxKey(id);
      if key.None? || key.value !in s.txs then Err(NoTransactionReason(id))
      else Ok(key.value)
  }

  /**
   * `_handleInternal`: a `resolve` or `reject` settles the pending
   * transaction its id names, or raises an error when the id is missing or
   * names none; an `error` is only emitted locally; any other name raises
   * an error.
   */
  function HandleInternalStep(s: State, m: Message, context: Value): State {
    if m.name == MSG_RESOLVE || m.name == MSG_REJECT then
      match SettleTarget(s, m.id)
      case Err(reason) => RaiseErrorStep(s, reason, context)
      case Ok(id) => Settle(s, id, ResponseOutcome(m))
    else if m.name == MSG_ERROR then
      s.(errors := s.errors + [m.payload])
    else
      RaiseErrorStep(s, "unhandled internal message " + m.name, context)
  }

  /** `handle(message, context)`: routes on the message type. */
  function HandleStep(s: State, self: Provider, m: Message, context: Value): State {
    match m.kind
    case Signal => HandleSignalStep(s, m, context)
    case Rpc => HandleRequestStep(s, self, m, context)
    case Internal => HandleInternalStep(s, m, context)
  }

  /** The reply to a completed handler: `resolve` with its result or `reject` with the raw reason. */
  function Reply(r: Running, c: Completion): Message {
    match c
    case Returned(result) => Message(Internal, r.inboundId, MSG_RESOLVE, result)
    case Threw(reason) => Message(Internal, r.inboundId, MSG_REJECT, reason)
  }

  /** The `then` callbacks of `_handelRequest`: the awaited handler completes and its reply is dispatched. */
  function CompletionStep(s: State, run: nat, c: Completion): State
    requires run in s.running
  {
    s.(outbox := s.outbox + [Outbound(Reply(s.running[run], c), s.running[run].context)],
       running := s.running - {run})
  }

  /** `_handleTimeout`: rejects the transaction, raises an error with no context, and deletes it. */
  function TimeoutStep(s: State, id: nat): State
    requires id in s.timers
  {
    var raised := RaiseErrorStep(s, "transaction " + NatToDecimal(id) + " timed out", Undefined);
    raised.(status := raised.status[id := Rejected(Str(TIMED_OUT))],
            txs := raised.txs - {id},
            timers := raised.timers - {id})
  }

  /**
   * `call(name, params)`: the invocation it makes, or the error its promise
   * rejects with when the name is not registered.
   */
  function CallResult(s: State, self: Provider, name: string, params: Value): (r: Result<Invocation<Provider>, Value>)
    ensures r.Ok? <==> HasMethod(s, name)
    ensures r.Ok? ==> r.value.receiver == self && r.value.handler == s.methods[name].handler && r.value.args == Arguments(params)
    ensures r.Err? ==> r.error.Obj? && Get(r.error, "message") == Str("invalid method " + name)
  {
    if name !in s.methods then Err(ErrorObject("Error", "invalid method " + name))
    else Ok(Execute(s.methods[name], self, params))
  }

  // ---------------------------------------------------------------------
  // Runs: any sequence of calls, inbound messages and environment steps
  // ---------------------------------------------------------------------

  datatype Event =
    | DoRequest(name: string, params: Value, options: Options)
    | DoSignal(signalName: string, payload: Value)
    | Receive(self: Provider, message: Message, context: Value)
    | TimerFires(id: nat)
    | HandlerCompletes(run: nat, completion: Completion)
    | DoDefine(methodName: string, definition: Definition)
    | DoDefineAll(table: Option<seq<(string, Definition)>>)
    | DoRemoveMethod(removed: string)
    | DoOnSignal(onName: string, listener: ListenerId)
    | DoOffSignal(offName: string, offListener: ListenerId)
    | DoOffAllSignals(allName: Option<string>)

  /** One event; a timer that was cleared never fires, and a handler completes only once. */
  function Apply(s: State, e: Event): State {
    match e
    case DoRequest(name, params, options) => RequestStep(s, name, params, options)
    case DoSignal(name, payload) => SignalStep(s, name, payload)
    case Receive(self, m, context) => HandleStep(s, self, m, context)
    case TimerFires(id) => if id in s.timers then TimeoutStep(s, id) else s
    case HandlerCompletes(run, c) => if run in s.running then CompletionStep(s, run, c) else s
    case DoDefine(name, definition) => DefineStep(s, name, definition).state
    case DoDefineAll(table) => DefineAllStep(s, table).state
    case DoRemoveMethod(name) => RemoveMethodStep(s, name)
    case DoOnSignal(name, l) => OnSignalStep(s, name, l)
    case DoOffSignal(name, l) => OffSignalStep(s, name, l)
    case DoOffAllSignals(name) => OffAllSignalsStep(s, name)
  }

  function Run(s: State, events: seq<Event>): State
    decreases |events|
  {
    if events == [] then s else Run(Apply(s, events[0]), events[1..])
  }

  /** Settlement is final: issued ids stay issued, and a settled transaction keeps its outcome. */
  ghost predicate SettlementsKept(s: State, t: State) {
    && s.nextId <= t.nextId
    && forall id :: id in s.status ==> id in t.status && (!s.status[id].Pending? ==> t.status[id] == s.status[id])
  }

  // ---------------------------------------------------------------------
  // Bookkeeping is preserved
  // ---------------------------------------------------------------------

  lemma RaiseErrorKeepsBookkeeping(s: State, reason: string, context: Value)
    ensures var t := RaiseErrorStep(s, reason, context);
      && t.(errors := s.errors, outbox := s.outbox) == s
      && |t.outbox| == |s.outbox| + 1 && t.outbox[..|s.outbox|] == s.outbox
      && t.outbox[|s.outbox|].message.kind == Internal && t.outbox[|s.outbox|].message.name == MSG_ERROR
      && t.outbox[|s.outbox|].context == context
      && t.errors == s.errors + [t.outbox[|s.outbox|].message.payload]
      && Response.IsFailureError(t.outbox[|s.outbox|].message.payload)
  {
  }

  lemma {:induction false} DefineEachKeepsInv(s: State, entries: seq<(string, Definition)>)
    requires Inv(s)
    ensures Inv(DefineEach(s, entries).state)
    decreases |entries|
  {
    if entries != [] {
      var step := DefineStep(s, entries[0].0, entries[0].1);
      if step.thrown.None? {
        DefineEachKeepsInv(step.state, entries[1..]);
      }
    }
  }

  lemma OffSignalKeepsInv(s: State, signal: string, listener: ListenerId)
    requires Inv(s)
    ensures Inv(OffSignalStep(s, signal, listener))
  {
  }

  lemma SignalKeepsInv(s: State, name: string, payload: Value)
    requires Inv(s)
    ensures Inv(SignalStep(s, name, payload))
  {
    BookkeepingKeepsInv(s, SignalStep(s, name, payload));
  }

  lemma RemoveMethodKeepsInv(s: State, name: string)
    requires Inv(s)
    ensures Inv(RemoveMethodStep(s, name))
  {
  }

  lemma OnSignalKeepsInv(s: State, signal: string, listener: ListenerId)
    requires Inv(s)
    ensures Inv(OnSignalStep(s, signal, listener))
  {
  }

  lemma OffAllSignalsKeepsInv(s: State, signal: Option<string>)
    requires Inv(s)
    ensures Inv(OffAllSignalsStep(s, signal))
    ensures Inv(OffAllSignalsAsWritten(s, signal))
  {
  }

  lemma RequestKeepsInv(s: State, name: string, params: Value, options: Options)
    requires Inv(s)
    ensures Inv(RequestStep(s, name, params, options))
  {
    assert s.nextId !in s.status;
  }

  /** The parts of a state the invariant speaks about. */
  predicate SameBookkeeping(s: State, t: State) {
    && t.nextId == s.nextId && t.methods == s.methods && t.txs == s.txs && t.status == s.status
    && t.timers == s.timers && t.signals == s.signals && t.running == s.running && t.nextRun == s.nextRun
  }

  lemma BookkeepingKeepsInv(s: State, t: State)
    requires Inv(s) && SameBookkeeping(s, t)
    ensures Inv(t)
  {
  }

  lemma RaiseErrorKeepsInv(s: State, reason: string, context: Value)
    requires Inv(s)
    ensures Inv(RaiseErrorStep(s, reason, context))
  {
    BookkeepingKeepsInv(s, RaiseErrorStep(s, reason, context));
  }

  /** Removing a pending transaction while recording a final outcome keeps the bookkeeping. */
  lemma SettleKeepsInv(s: State, id: nat, outcome: Status)
    requires Inv(s) && id in s.txs && !outcome.Pending?
    ensures Inv(Settle(s, id, outcome))
  {
    var t := Settle(s, id, outcome);
    forall k: nat ensures k in t.txs <==> k in t.status && t.status[k].Pending? {
      if k != id {
        assert k in t.txs <==> k in s.txs;
      }
    }
  }

  lemma TimeoutKeepsInv(s: State, id: nat)
    requires Inv(s) && id in s.timers
    ensures Inv(TimeoutStep(s, id))
  {
    var r := RaiseErrorStep(s, "transaction " + NatToDecimal(id) + " timed out", Undefined);
    RaiseErrorKeepsInv(s, "transaction " + NatToDecimal(id) + " timed out", Undefined);
    assert TimeoutStep(s, id) == Settle(r, id, Rejected(Str(TIMED_OUT)));
    SettleKeepsInv(r, id, Rejected(Str(TIMED_OUT)));
  }

  lemma HandleInternalKeepsInv(s: State, m: Message, context: Value)
    requires Inv(s)
    ensures Inv(HandleInternalStep(s, m, context))
  {
    var settled := InternalCases(s, m, context);
    if settled.Some? {
      SettleKeepsInv(s, settled.value, ResponseOutcome(m));
    } else {
      BookkeepingKeepsInv(s, HandleInternalStep(s, m, context));
    }
  }

  lemma HandleRequestKeepsInv(s: State, self: Provider, m: Message, context: Value)
    requires Inv(s)
    ensures Inv(HandleRequestStep(s, self, m, context))
  {
  }

  lemma HandleSignalKeepsInv(s: State, m: Message, context: Value)
    requires Inv(s)
    ensures Inv(HandleSignalStep(s, m, context))
  {
    if |Listeners(s, "signal")| == 0 && |Listeners(s, m.name)| == 0 {
      RaiseErrorKeepsInv(s, "invalid signal " + m.name, context);
    } else {
      BookkeepingKeepsInv(s, HandleSignalStep(s, m, context));
    }
  }

  lemma HandleKeepsInv(s: State, self: Provider, m: Message, context: Value)
    requires Inv(s)
    ensures Inv(HandleStep(s, self, m, context))
  {
    match m.kind
    case Signal => HandleSignalKeepsInv(s, m, context);
    case Rpc => HandleRequestKeepsInv(s, self, m, context);
    case Internal => HandleInternalKeepsInv(s, m, context);
  }

  lemma DefineKeepsInv(s: State, name: string, definition: Definition)
    requires Inv(s)
    ensures Inv(DefineStep(s, name, definition).state)
  {
  }

  lemma CompletionKeepsInv(s: State, run: nat, c: Completion)
    requires Inv(s) && run in s.running
    ensures Inv(CompletionStep(s, run, c))
  {
  }

  /** Every event keeps the provider's bookkeeping. */
  lemma ApplyKeepsInv(s: State, e: Event)
    requires Inv(s)
    ensures Inv(Apply(s, e))
  {
    if e.DoRequest? || e.Receive? || e.TimerFires? || e.HandlerCompletes? {
      TransactionEventKeepsInv(s, e);
    } else {
      TableEventKeepsInv(s, e);
    }
  }

  /** The events that issue, settle or answer transactions. */
  lemma TransactionEventKeepsInv(s: State, e: Event)
    requires Inv(s) && (e.DoRequest? || e.Receive? || e.TimerFires? || e.HandlerCompletes?)
    ensures Inv(Apply(s, e))
  {
    match e
    case DoRequest(name, params, options) => RequestKeepsInv(s, name, params, options);
    case Receive(self, m, context) => HandleKeepsInv(s, self, m, context);
    case TimerFires(id) => if id in s.timers { TimeoutKeepsInv(s, id); }
    case HandlerCompletes(run, c) => if run in s.running { CompletionKeepsInv(s, run, c); }
  }

  /** The events that change the method table or the listeners, or dispatch a signal. */
  lemma TableEventKeepsInv(s: State, e: Event)
    requires Inv(s) && !(e.DoRequest? || e.Receive? || e.TimerFires? || e.HandlerCompletes?)
    ensures Inv(Apply(s, e))
  {
    match e
    case DoSignal(name, payload) => SignalKeepsInv(s, name, payload);
    case DoDefine(name, definition) => DefineKeepsInv(s, name, definition);
    case DoDefineAll(table) => if table.Some? { DefineEachKeepsInv(s, table.value); }
    case DoRemoveMethod(name) => RemoveMethodKeepsInv(s, name);
    case DoOnSignal(name, l) => OnSignalKeepsInv(s, name, l);
    case DoOffSignal(name, l) => OffSignalKeepsInv(s, name, l);
    case DoOffAllSignals(name) => OffAllSignalsKeepsInv(s, name);
  }

  lemma {:induction false} RunKeepsInv(s: State, events: seq<Event>)
    requires Inv(s)
    ensures Inv(Run(s, events))
    decreases |events|
  {
    if events != [] {
      ApplyKeepsInv(s, events[0]);
      RunKeepsInv(Apply(s, events[0]), events[1..]);
    }
  }

  // ---------------------------------------------------------------------
  // Every transaction settles at most once
  // ---------------------------------------------------------------------

  lemma {:induction false} DefineEachKeepsStatus(s: State, entries: seq<(string, Definition)>)
    ensures var t := DefineEach(s, entries).state;
      t.(methods := s.methods) == s
    decreases |entries|
  {
    if entries != [] {
      var step := DefineStep(s, entries[0].0, entries[0].1);
      if step.thrown.None? {
        DefineEachKeepsStatus(step.state, entries[1..]);
      }
    }
  }

  lemma SettleKeepsSettlements(s: State, id: nat, outcome: Status)
    requires Inv(s) && id in s.txs
    ensures SettlementsKept(s, Settle(s, id, outcome))
  {
    assert s.status[id].Pending?;
  }

  lemma BookkeepingKeepsSettlements(s: State, t: State)
    requires SameBookkeeping(s, t)
    ensures SettlementsKept(s, t)
  {
  }

  /** A step that leaves the id counter and the settlement table alone keeps every settlement. */
  lemma StatusKeptSettles(s: State, t: State)
    requires t.nextId == s.nextId && t.status == s.status
    ensures SettlementsKept(s, t)
  {
  }

  lemma RequestKeepsSettlements(s: State, name: string, params: Value, options: Options)
    requires Inv(s)
    ensures SettlementsKept(s, RequestStep(s, name, params, options))
  {
    assert s.nextId !in s.status;
  }

  /**
   * An internal message either settles one pending transaction or leaves
   * the bookkeeping alone; `settled` names the transaction when it does.
   */
  lemma RaiseErrorBookkeeping(s: State, reason: string, context: Value)
    ensures SameBookkeeping(s, RaiseErrorStep(s, reason, context))
  {
  }

  lemma InternalCases(s: State, m: Message, context: Value) returns (settled: Option<nat>)
    ensures settled.None? ==> SameBookkeeping(s, HandleInternalStep(s, m, context))
    ensures settled.Some? ==>
      settled.value in s.txs && HandleInternalStep(s, m, context) == Settle(s, settled.value, ResponseOutcome(m))
  {
    settled := None;
    var t := HandleInternalStep(s, m, context);
    if m.name == MSG_RESOLVE || m.name == MSG_REJECT {
      var target := SettleTarget(s, m.id);
      if target.Ok? {
        settled := Some(target.value);
      } else {
        assert t == RaiseErrorStep(s, target.error, context);
        RaiseErrorBookkeeping(s, target.error, context);
      }
    } else if m.name == MSG_ERROR {
      assert t == s.(errors := s.errors + [m.payload]);
    } else {
      assert t == RaiseErrorStep(s, "unhandled internal message " + m.name, context);
      RaiseErrorBookkeeping(s, "unhandled internal message " + m.name, context);
    }
  }

  lemma HandleInternalKeepsSettlements(s: State, m: Message, context: Value)
    requires Inv(s)
    ensures SettlementsKept(s, HandleInternalStep(s, m, context))
  {
    var settled := InternalCases(s, m, context);
    if settled.Some? {
      SettleKeepsSettlements(s, settled.value, ResponseOutcome(m));
    } else {
      BookkeepingKeepsSettlements(s, HandleInternalStep(s, m, context));
    }
  }

  lemma HandleSignalKeepsSettlements(s: State, m: Message, context: Value)
    ensures SettlementsKept(s, HandleSignalStep(s, m, context))
  {
    if |Listeners(s, "signal")| == 0 && |Listeners(s, m.name)| == 0 {
      BookkeepingKeepsSettlements(s, RaiseErrorStep(s, "invalid signal " + m.name, context));
    } else {
      BookkeepingKeepsSettlements(s, HandleSignalStep(s, m, context));
    }
  }

  lemma HandleKeepsSettlements(s: State, self: Provider, m: Message, context: Value)
    requires Inv(s)
    ensures SettlementsKept(s, HandleStep(s, self, m, context))
  {
    match m.kind
    case Signal => HandleSignalKeepsSettlements(s, m, context);
    case Rpc =>
    case Internal => HandleInternalKeepsSettlements(s, m, context);
  }

  lemma TimeoutKeepsSettlements(s: State, id: nat)
    requires Inv(s) && id in s.timers
    ensures SettlementsKept(s, TimeoutStep(s, id))
  {
    assert s.status[id].Pending?;
  }

  lemma ReceiveKeepsSettlements(s: State, e: Event)
    requires Inv(s) && e.Receive?
    ensures SettlementsKept(s, Apply(s, e))
  {
    HandleKeepsSettlements(s, e.self, e.message, e.context);
  }

  lemma TimerKeepsSettlements(s: State, e: Event)
    requires Inv(s) && e.TimerFires?
    ensures SettlementsKept(s, Apply(s, e))
  {
    if e.id in s.timers {
      TimeoutKeepsSettlements(s, e.id);
    }
  }

  lemma DefineAllKeepsSettlements(s: State, e: Event)
    requires e.DoDefineAll?
    ensures SettlementsKept(s, Apply(s, e))
  {
    if e.table.Some? {
      DefineEachKeepsStatus(s, e.table.value);
    }
  }

  /** The events that touch only the method table, the listeners or a finished run. */
  lemma LocalEventKeepsSettlements(s: State, e: Event)
    requires e.HandlerCompletes? || e.DoDefine?
    ensures SettlementsKept(s, Apply(s, e))
  {
    StatusKeptSettles(s, Apply(s, e));
  }

  lemma ListenerEventKeepsSettlements(s: State, e: Event)
    requires e.DoSignal? || e.DoRemoveMethod? || e.DoOnSignal? || e.DoOffSignal? || e.DoOffAllSignals?
    ensures SettlementsKept(s, Apply(s, e))
  {
    StatusKeptSettles(s, Apply(s, e));
  }

  /** Only a pending transaction changes status, and no issued id is forgotten. */
  lemma ApplyKeepsSettlements(s: State, e: Event)
    requires Inv(s)
    ensures SettlementsKept(s, Apply(s, e))
  {
    match e
    case DoRequest(name, params, options) => RequestKeepsSettlements(s, name, params, options);
    case Receive(_, _, _) => ReceiveKeepsSettlements(s, e);
    case TimerFires(_) => TimerKeepsSettlements(s, e);
    case DoDefineAll(_) => DefineAllKeepsSettlements(s, e);
    case HandlerCompletes(_, _) => LocalEventKeepsSettlements(s, e);
    case DoDefine(_, _) => LocalEventKeepsSettlements(s, e);
    case _ => ListenerEventKeepsSettlements(s, e);
  }

  lemma SettlementsKeptTransitive(r: State, s: State, t: State)
    requires SettlementsKept(r, s) && SettlementsKept(s, t)
    ensures SettlementsKept(r, t)
  {
  }

  /**
   * Over any run of calls, inbound messages, timeouts and handler
   * completions, a transaction that has settled keeps its outcome: no
   * transaction is settled twice, and no id is issued twice.
   */
  lemma {:induction false} RunKeepsSettlements(s: State, events: seq<Event>)
    requires Inv(s)
    ensures SettlementsKept(s, Run(s, events))
    decreases |events|
  {
    if events != [] {
      var next := Apply(s, events[0]);
      ApplyKeepsInv(s, events[0]);
      ApplyKeepsSettlements(s, events[0]);
      RunKeepsSettlements(next, events[1..]);
      SettlementsKeptTransitive(s, next, Run(next, events[1..]));
    }
  }

  // ---------------------------------------------------------------------
  // request and signal
  // ---------------------------------------------------------------------

  /**
   * `request` takes `nextId`, which no earlier request used, records exactly
   * one pending transaction under it, arms its timer exactly when the
   * effective timeout is positive, dispatches exactly one `rpc` message
   * carrying the id, and changes nothing else.
   */
  lemma RequestIssuesFreshId(s: State, name: string, params: Value, options: Options)
    requires Inv(s)
    ensures var id := s.nextId; var t := RequestStep(s, name, params, options);
      && id !in s.status && id !in s.txs && t.nextId == id + 1
      && id in t.txs && t.txs[id].id == id && t.status[id] == Pending
      && (forall k :: k != id ==> (k in t.txs <==> k in s.txs) && (k in s.txs ==> t.txs[k] == s.txs[k]))
      && (forall k :: k != id ==> (k in t.status <==> k in s.status) && (k in s.status ==> t.status[k] == s.status[k]))
      && (id in t.timers <==> EffectiveTimeout(options, s.defaultTimeout) > 0)
      && t.timers - {id} == s.timers
      && t.outbox == s.outbox + [Outbound(Message(Rpc, Num(id), name, params), Undefined)]
      && t.methods == s.methods && t.signals == s.signals && t.running == s.running && t.errors == s.errors
  {
  }

  /** A bare number of milliseconds is `{timeout: n}`; `0` there disables the timer even when the default is positive. */
  lemma NumericOptionsMeanTimeout(n: int, defaultTimeout: int)
    ensures EffectiveTimeout(Number(n), defaultTimeout) == EffectiveTimeout(Object(Some(n)), defaultTimeout)
    ensures EffectiveTimeout(Object(None), defaultTimeout) == defaultTimeout
    ensures EffectiveTimeout(Absent, defaultTimeout) == defaultTimeout
  {
  }

  /** Ids issued after any run are fresh: the next request's id was never issued before. */
  lemma NextIdIsFresh(s: State, events: seq<Event>)
    requires Inv(s)
    ensures var t := Run(s, events);
      t.nextId >= s.nextId && t.nextId !in t.status && forall id :: id in s.status ==> id < t.nextId
  {
    RunKeepsInv(s, events);
    RunKeepsSettlements(s, events);
  }

  /** Two requests in a row get increasing ids. */
  lemma SuccessiveRequestsIncrease(s: State, n1: string, p1: Value, o1: Options, n2: string, p2: Value, o2: Options)
    ensures var t := RequestStep(s, n1, p1, o1); var u := RequestStep(t, n2, p2, o2);
      t.outbox[|s.outbox|].message.id == Num(s.nextId)
      && u.outbox[|t.outbox|].message.id == Num(t.nextId)
      && s.nextId < t.nextId
  {
  }

  // ---------------------------------------------------------------------
  // The method table
  // ---------------------------------------------------------------------

  /**
   * `method` ignores anything that is neither a `Method` nor a function,
   * before looking at the name; a reserved name throws and changes nothing;
   * anything else is stored, replacing a previous entry.
   */
  lemma DefineOutcomes(s: State, name: string, definition: Definition)
    ensures var r := DefineStep(s, name, definition);
      var valid := definition.MethodInstance? || definition.v.Fn?;
      && (!valid ==> r == Step(s, None))
      && (valid && IsReservedName(name) ==> r == Step(s, Some(ReservedNameError(name))))
      && (valid && !IsReservedName(name) ==>
            r.thrown == None && r.state.(methods := s.methods) == s
            && HasMethod(r.state, name)
            && r.state.methods[name].handler == (if definition.MethodInstance? then definition.m.handler else definition.v)
            && forall n :: n != name ==> (n in r.state.methods <==> n in s.methods) && (n in s.methods ==> r.state.methods[n] == s.methods[n]))
  {
  }

  /** A name is reserved exactly when it starts with `rpc.`; `rpc` alone and `rpcx` are not. */
  lemma ReservedNames()
    ensures IsReservedName("rpc.on") && IsReservedName("rpc.")
    ensures !IsReservedName("rpc") && !IsReservedName("rpcx") && !IsReservedName("xrpc.on")
  {
    assert "rpcx"[..4][3] == 'x';
    assert "xrpc.on"[..4][0] == 'x';
  }

  /** `methods(table)` changes only the method table, and only under the names of its entries. */
  lemma {:induction false} DefineEachFrame(s: State, entries: seq<(string, Definition)>)
    ensures var r := DefineEach(s, entries);
      && r.state.(methods := s.methods) == s
      && (forall n :: n in r.state.methods && (forall i :: 0 <= i < |entries| ==> entries[i].0 != n) ==>
            n in s.methods && r.state.methods[n] == s.methods[n])
      && (forall n :: n in s.methods && (forall i :: 0 <= i < |entries| ==> entries[i].0 != n) ==> n in r.state.methods)
    decreases |entries|
  {
    if entries != [] {
      var step := DefineStep(s, entries[0].0, entries[0].1);
      if step.thrown.None? {
        DefineEachFrame(step.state, entries[1..]);
        assert forall i :: 0 <= i < |entries[1..]| ==> entries[1..][i] == entries[i + 1];
      }
    }
  }

  /** `methods(table)` throws iff some entry throws, and then it is that entry's reserved-name error. */
  lemma {:induction false} DefineEachThrows(s: State, entries: seq<(string, Definition)>)
    ensures var r := DefineEach(s, entries);
      && (r.thrown.Some? <==> exists i :: 0 <= i < |entries| && Throws(entries[i]))
      && (r.thrown.Some? ==> exists i :: 0 <= i < |entries| && r.thrown == Some(ReservedNameError(entries[i].0)))
    decreases |entries|
  {
    if entries != [] {
      var step := DefineStep(s, entries[0].0, entries[0].1);
      if step.thrown.None? {
        DefineEachThrows(step.state, entries[1..]);
        var r := DefineEach(step.state, entries[1..]);
        if r.thrown.Some? {
          var i :| 0 <= i < |entries[1..]| && Throws(entries[1..][i]);
          assert Throws(entries[i + 1]);
          var j :| 0 <= j < |entries[1..]| && r.thrown == Some(ReservedNameError(entries[1..][j].0));
          assert r.thrown == Some(ReservedNameError(entries[j + 1].0));
        } else {
          forall i | 0 <= i < |entries| ensures !Throws(entries[i]) {
            if i > 0 { assert entries[i] == entries[1..][i - 1]; }
          }
        }
      } else {
        assert Throws(entries[0]);
      }
    }
  }

  /**
   * `methods(table)` either registers every entry or stops at the first
   * entry that throws; only the table changes, and only under the names
   * of the entries.
   */
  lemma DefineEachOutcome(s: State, entries: seq<(string, Definition)>)
    ensures var r := DefineEach(s, entries);
      && r.state.(methods := s.methods) == s
      && (forall n :: n in r.state.methods && (forall i :: 0 <= i < |entries| ==> entries[i].0 != n) ==>
            n in s.methods && r.state.methods[n] == s.methods[n])
      && (forall n :: n in s.methods && (forall i :: 0 <= i < |entries| ==> entries[i].0 != n) ==> n in r.state.methods)
      && (r.thrown.Some? <==> exists i :: 0 <= i < |entries| && Throws(entries[i]))
      && (r.thrown.Some? ==> exists i :: 0 <= i < |entries| && r.thrown == Some(ReservedNameError(entries[i].0)))
  {
    DefineEachFrame(s, entries);
    DefineEachThrows(s, entries);
  }

  /** Whether registering this entry throws: a function or `Method` under a reserved name. */
  predicate Throws(entry: (string, Definition)) {
    (entry.1.MethodInstance? || entry.1.v.Fn?) && IsReservedName(entry.0)
  }

  /** After `removeMethod(n)` the name is gone, nothing else changed, and removing it again does nothing. */
  lemma RemoveMethodRemoves(s: State, name: string)
    ensures var t := RemoveMethodStep(s, name);
      && !HasMethod(t, name)
      && t.(methods := s.methods) == s
      && (forall n :: n != name ==> (n in t.methods <==> n in s.methods) && (n in s.methods ==> t.methods[n] == s.methods[n]))
      && RemoveMethodStep(t, name) == t
  {
  }

  /** `hasMethod` as written answers yes for an inherited member of the table even on a fresh provider. */
  lemma HasMethodAsWrittenOnFreshProvider()
    ensures HasMethodAsWritten(Initial(None), "toString")
    ensures !HasMethod(Initial(None), "toString")
  {
  }

  /**
   * `hasMethod` as intended: true exactly for names that can be called, so
   * a fresh provider has none, a registered name has one until removed.
   */
  lemma HasMethodMeansCallable(s: State, self: Provider, name: string, params: Value)
    ensures HasMethod(s, name) <==> CallResult(s, self, name, params).Ok?
    ensures !HasMethod(Initial(None), name)
    ensures !HasMethod(RemoveMethodStep(s, name), name)
  {
  }

  // ---------------------------------------------------------------------
  // Signals
  // ---------------------------------------------------------------------

  lemma {:induction false} RemoveLastAbsent(ls: seq<ListenerId>, l: ListenerId)
    requires l !in ls
    ensures RemoveLast(ls, l) == ls
    decreases |ls|
  {
    if ls != [] {
      RemoveLastAbsent(ls[..|ls| - 1], l);
    }
  }

  lemma {:induction false} RemoveLastAt(ls: seq<ListenerId>, l: ListenerId) returns (i: nat)
    requires l in ls
    ensures i < |ls| && ls[i] == l && l !in ls[i + 1..] && RemoveLast(ls, l) == ls[..i] + ls[i + 1..]
    decreases |ls|
  {
    var init := ls[..|ls| - 1];
    var last := ls[|ls| - 1];
    assert ls == init + [last];
    if last == l {
      i := |ls| - 1;
    } else {
      assert l in init;
      i := RemoveLastAt(init, l);
      assert ls[i + 1..] == init[i + 1..] + [last];
      assert ls[..i] == init[..i];
    }
  }

  /** `RemoveLast` takes out exactly the last occurrence and keeps the rest in order. */
  lemma RemoveLastSplits(ls: seq<ListenerId>, l: ListenerId)
    ensures l !in ls ==> RemoveLast(ls, l) == ls
    ensures l in ls ==>
      exists i :: 0 <= i < |ls| && ls[i] == l && l !in ls[i + 1..] && RemoveLast(ls, l) == ls[..i] + ls[i + 1..]
  {
    if l in ls {
      var i := RemoveLastAt(ls, l);
    } else {
      RemoveLastAbsent(ls, l);
    }
  }

  /** Disposing what `onSignal` returned undoes that registration exactly. */
  lemma OnSignalThenDispose(s: State, signal: string, listener: ListenerId)
    requires Inv(s)
    ensures OffSignalStep(OnSignalStep(s, signal, listener), signal, listener) == s
  {
    var ls := Listeners(s, signal);
    var t := OnSignalStep(s, signal, listener);
    assert RemoveLast(ls + [listener], listener) == ls by {
      assert (ls + [listener])[..|ls|] == ls;
    }
    assert signal in t.signals && t.signals[signal] == ls + [listener];
    if signal !in s.signals {
      assert OffSignalStep(t, signal, listener) == s.(signals := t.signals - {signal});
      assert t.signals - {signal} == s.signals;
    } else {
      assert ls != [];
      assert OffSignalStep(t, signal, listener) == s.(signals := t.signals[signal := ls]);
      assert t.signals[signal := ls] == s.signals;
    }
  }

  /** `offSignal` removes one registration of that listener under that name and touches nothing else. */
  lemma OffSignalRemovesOne(s: State, signal: string, listener: ListenerId)
    requires listener in Listeners(s, signal)
    ensures var t := OffSignalStep(s, signal, listener); var ls := Listeners(s, signal);
      && (exists i :: 0 <= i < |ls| && ls[i] == listener && Listeners(t, signal) == ls[..i] + ls[i + 1..])
      && (forall n :: n != signal ==> Listeners(t, n) == Listeners(s, n))
      && t.(signals := s.signals) == s
  {
    var t := OffSignalStep(s, signal, listener);
    var ls := Listeners(s, signal);
    var i := RemoveLastAt(ls, listener);
    assert Listeners(t, signal) == ls[..i] + ls[i + 1..];
    forall n | n != signal
      ensures Listeners(t, n) == Listeners(s, n)
    {
      assert n in t.signals <==> n in s.signals;
    }
  }

  /**
   * As written, `offAllSignals()` leaves listeners in place: after
   * `onSignal("a", l)` on a fresh provider, `"a"` still has `l`, and no name
   * but `"undefined"` loses any listener.
   */
  lemma OffAllSignalsAsWrittenKeepsListeners(s: State, l: ListenerId)
    ensures var t := OnSignalStep(Initial(None), "a", l);
      Listeners(OffAllSignalsAsWritten(t, None), "a") == [l]
    ensures forall n :: n != "undefined" ==> Listeners(OffAllSignalsAsWritten(s, None), n) == Listeners(s, n)
  {
    var t := OnSignalStep(Initial(None), "a", l);
    assert "a" in OffAllSignalsAsWritten(t, None).signals;
    forall n | n != "undefined"
      ensures Listeners(OffAllSignalsAsWritten(s, None), n) == Listeners(s, n)
    {
      assert n in OffAllSignalsAsWritten(s, None).signals <==> n in s.signals;
    }
  }

  /**
   * The intended `offAllSignals`: with no name every listener is gone, with a
   * name exactly that name's listeners are; nothing else changes, and with a
   * name it agrees with the code as written.
   */
  lemma OffAllSignalsClears(s: State, signal: Option<string>)
    ensures var t := OffAllSignalsStep(s, signal);
      && t.(signals := s.signals) == s
      && (signal.None? ==> forall n :: Listeners(t, n) == [])
      && (signal.Some? ==> Listeners(t, signal.value) == [])
      && (signal.Some? ==> forall n :: n != signal.value ==> Listeners(t, n) == Listeners(s, n))
      && (signal.Some? ==> t == OffAllSignalsAsWritten(s, signal))
  {
    var t := OffAllSignalsStep(s, signal);
    if signal.Some? {
      forall n | n != signal.value
        ensures Listeners(t, n) == Listeners(s, n)
      {
        assert n in t.signals <==> n in s.signals;
      }
    }
  }

  /** An inbound signal with no listener under its name or under `'signal'` raises an error. */
  lemma UnheardSignalRaises(s: State, self: Provider, name: string, payload: Value, context: Value)
    requires Listeners(s, "signal") == [] && Listeners(s, name) == []
    ensures HandleStep(s, self, Message(Signal, Undefined, name, payload), context)
      == RaiseErrorStep(s, "invalid signal " + name, context)
  {
  }

  /**
   * Otherwise every listener under its name is called with the payload and
   * the context, in order, and nothing is dispatched.
   */
  lemma HeardSignalDelivers(s: State, self: Provider, m: Message, context: Value)
    requires m.kind == Signal && (Listeners(s, "signal") != [] || Listeners(s, m.name) != [])
    ensures var t := HandleStep(s, self, m, context); var ls := Listeners(s, m.name);
      && t.(deliveries := s.deliveries) == s
      && |t.deliveries| == |s.deliveries| + |ls|
      && t.deliveries[..|s.deliveries|] == s.deliveries
      && forall i :: 0 <= i < |ls| ==> t.deliveries[|s.deliveries| + i] == Delivery(ls[i], m.payload, context)
  {
  }

  // ---------------------------------------------------------------------
  // Inbound requests get exactly one reply
  // ---------------------------------------------------------------------

  /** A request for an unknown method is answered at once with exactly one METHOD_NOT_FOUND `reject` carrying its id. */
  lemma UnknownMethodRejected(s: State, self: Provider, m: Message, context: Value)
    requires m.kind == Rpc && !HasMethod(s, m.name)
    ensures var t := HandleStep(s, self, m, context);
      && t.(outbox := s.outbox) == s
      && t.outbox == s.outbox + [Outbound(Message(Internal, m.id, MSG_REJECT, MethodNotFound(m.name)), context)]
      && Get(MethodNotFound(m.name), "code") == Num(Response.METHOD_NOT_FOUND_ERROR)
  {
  }

  /**
   * A request for a known method invokes its handler once, on this
   * provider, with the normalised params, and dispatches nothing until the
   * handler completes.
   */
  lemma KnownMethodInvoked(s: State, self: Provider, m: Message, context: Value)
    requires Inv(s) && m.kind == Rpc && HasMethod(s, m.name)
    ensures var t := HandleStep(s, self, m, context); var run := s.nextRun;
      && t.(running := s.running, nextRun := s.nextRun) == s
      && run !in s.running && t.running == s.running[run := t.running[run]]
      && t.running[run].inboundId == m.id && t.running[run].context == context
      && t.running[run].call == Invocation(s.methods[m.name].handler, self, Arguments(m.payload))
  {
  }

  /**
   * When the handler completes, exactly one reply goes out: `resolve` with
   * the result or `reject` with the raw reason, carrying the inbound id and
   * context. The run is then finished, so a second completion sends nothing.
   */
  lemma CompletionRepliesOnce(s: State, run: nat, c: Completion)
    requires run in s.running
    ensures var t := CompletionStep(s, run, c); var r := s.running[run];
      && t.(outbox := s.outbox, running := s.running) == s
      && t.outbox == s.outbox + [Outbound(Reply(r, c), r.context)]
      && Reply(r, c).kind == Internal && Reply(r, c).id == r.inboundId
      && (c.Returned? ==> Reply(r, c).name == MSG_RESOLVE && Reply(r, c).payload == c.result)
      && (c.Threw? ==> Reply(r, c).name == MSG_REJECT && Reply(r, c).payload == c.reason)
      && forall c' :: Apply(t, HandlerCompletes(run, c')) == t
  {
  }

  // ---------------------------------------------------------------------
  // Inbound responses
  // ---------------------------------------------------------------------

  /** The id test lets `0`, `false` and `""` through and stops only `null` and `undefined`. */
  lemma IdMissingIffNullish(id: Value)
    ensures IdMissing(id) <==> IsNullish(id)
  {
  }

  /** A number id and its decimal string name the same pending transaction; a negative number names none. */
  lemma TxKeyOfId(n: nat)
    ensures TxKey(Num(n)) == Some(n)
    ensures TxKey(Str(NatToDecimal(n))) == Some(n)
    ensures TxKey(Num(-1 - n)) == None
  {
    ParseCanonicalNatIff(NatToDecimal(n), n);
    assert ToStr(Num(-1 - n))[0] == '-';
  }

  function ResponseMessage(resolve: bool, id: Value, payload: Value): Message {
    Message(Internal, id, if resolve then MSG_RESOLVE else MSG_REJECT, payload)
  }

  /**
   * A `resolve` or `reject` naming a pending transaction settles exactly
   * that one with the payload, clears its timer, deletes it, and
   * dispatches nothing.
   */
  lemma ResponseSettles(s: State, self: Provider, n: nat, resolve: bool, payload: Value, context: Value)
    requires Inv(s) && n in s.txs
    ensures var t := HandleStep(s, self, ResponseMessage(resolve, Num(n), payload), context);
      && t.status == s.status[n := if resolve then Resolved(payload) else Rejected(payload)]
      && t.txs == s.txs - {n} && t.timers == s.timers - {n}
      && t.outbox == s.outbox && t.errors == s.errors
      && t.(status := s.status, txs := s.txs, timers := s.timers) == s
      && Apply(t, TimerFires(n)) == t
  {
    var m := ResponseMessage(resolve, Num(n), payload);
    assert SettleTarget(s, Num(n)) == Ok(n) by {
      TxKeyOfId(n);
    }
    var t := Settle(s, n, ResponseOutcome(m));
    assert HandleStep(s, self, m, context) == t;
    assert n in s.timers <==> s.txs[n].armed;
    assert t.timers == s.timers - {n};
  }

  /** A `resolve` or `reject` without an id raises an error and settles nothing. */
  lemma ResponseWithoutIdRaises(s: State, self: Provider, id: Value, resolve: bool, payload: Value, context: Value)
    requires IsNullish(id)
    ensures HandleStep(s, self, ResponseMessage(resolve, id, payload), context) == RaiseErrorStep(s, MissingIdReason(), context)
  {
  }

  /**
   * A response for a transaction that has already settled, by an earlier
   * response or by its timeout, finds no pending entry: it raises an error
   * and changes no transaction.
   */
  lemma LateResponseRaises(s: State, self: Provider, n: nat, resolve: bool, payload: Value, context: Value)
    requires Inv(s) && n in s.status && !s.status[n].Pending?
    ensures HandleStep(s, self, ResponseMessage(resolve, Num(n), payload), context)
      == RaiseErrorStep(s, NoTransactionReason(Num(n)), context)
  {
    TxKeyOfId(n);
  }

  /** An inbound `error` is emitted locally and nothing is dispatched. */
  lemma InboundErrorOnlyEmits(s: State, self: Provider, payload: Value, id: Value, context: Value)
    ensures var t := HandleStep(s, self, Message(Internal, id, MSG_ERROR, payload), context);
      t == s.(errors := s.errors + [payload])
  {
  }

  /** Any other internal message name raises an error. */
  lemma UnknownInternalRaises(s: State, self: Provider, m: Message, context: Value)
    requires m.kind == Internal && m.name != MSG_RESOLVE && m.name != MSG_REJECT && m.name != MSG_ERROR
    ensures HandleStep(s, self, m, context) == RaiseErrorStep(s, "unhandled internal message " + m.name, context)
  {
  }

  // ---------------------------------------------------------------------
  // Timeouts
  // ---------------------------------------------------------------------

  /**
   * A timeout rejects its transaction with `'transaction timed out'`,
   * deletes it, raises an error with no context, and leaves every other
   * transaction alone; a response arriving afterwards raises an error.
   */
  lemma TimeoutRejects(s: State, self: Provider, n: nat, resolve: bool, payload: Value, context: Value)
    requires Inv(s) && n in s.timers
    ensures var t := TimeoutStep(s, n);
      && t.status == s.status[n := Rejected(Str(TIMED_OUT))]
      && t.txs == s.txs - {n} && t.timers == s.timers - {n}
      && t.(status := s.status, txs := s.txs, timers := s.timers)
         == RaiseErrorStep(s, "transaction " + NatToDecimal(n) + " timed out", Undefined)
      && Inv(t)
      && HandleStep(t, self, ResponseMessage(resolve, Num(n), payload), context)
         == RaiseErrorStep(t, NoTransactionReason(Num(n)), context)
  {
    TimeoutKeepsInv(s, n);
    LateResponseRaises(TimeoutStep(s, n), self, n, resolve, payload, context);
  }

  /**
   * The provider object. Its fields are the components of `State`, and
   * every method is proved to take the step the state machine above takes,
   * keeping `Valid()`.
   */
  class Provider {
    const defaultTimeout: int
    var nextId: nat
    var methods: map<string, Method>
    var txs: map<nat, Transaction>
    /** How the promise each `request` returned has settled so far. */
    var status: map<nat, Status>
    var timers: set<nat>
    var signals: map<string, seq<ListenerId>>
    /** Every message handed to the dispatcher, with its context, in order. */
    var outbox: seq<Outbound>
    /** Every `'error'` event the provider emitted, in order. */
    var errors: seq<Value>
    /** Every call of a signal listener, in order. */
    var deliveries: seq<Delivery>
    /** Handlers invoked for inbound requests whose results are awaited. */
    var running: map<nat, Running>
    var nextRun: nat

    function Abs(): State
      reads this
    {
      State(defaultTimeout, nextId, methods, txs, status, timers, signals, outbox, errors, deliveries, running, nextRun)
    }

    ghost predicate Valid()
      reads this
    {
      Inv(Abs())
    }

    /** `new Provider(dispatch, timeout)`: the dispatcher is the outbox. */
    constructor(timeout: Option<int>)
      ensures Abs() == Initial(timeout) && Valid()
    {
      defaultTimeout := if timeout.Some? then timeout.value else 0;
      nextId := 0;
      methods := map[];
      txs := map[];
      status := map[];
      timers := {};
      signals := map[];
      outbox := [];
      errors := [];
      deliveries := [];
      running := map[];
      nextRun := 0;
    }

    method Define(name: string, definition: Definition) returns (thrown: Option<Value>)
      requires Valid()
      modifies this
      ensures Step(Abs(), thrown) == DefineStep(old(Abs()), name, definition) && Valid()
    {
      var isMethod := definition.MethodInstance?;
      var isFunction := definition.Plain? && TypeOf(definition.v) == "function";
      if !isMethod && !isFunction {
        return None;
      }
      if IsReservedName(name) {
        return Some(ReservedNameError(name));
      }
      var m := if isMethod then definition.m else Method(definition.v, PlainObject(map[]));
      methods := methods[name := m];
      thrown := None;
      DefineKeepsInv(old(Abs()), name, definition);
    }

    /** `methods(table)`: `method` for each entry in order; the first exception ends the loop. */
    method DefineAll(table: Option<seq<(string, Definition)>>) returns (thrown: Option<Value>)
      requires Valid()
      modifies this
      ensures Step(Abs(), thrown) == DefineAllStep(old(Abs()), table) && Valid()
    {
      thrown := None;
      if table.None? {
        return;
      }
      var entries := table.value;
      for i := 0 to |entries|
        invariant Valid()
        invariant thrown.None?
        invariant DefineEach(Abs(), entries[i..]) == DefineEach(old(Abs()), entries)
      {
        assert entries[i..][0] == entries[i] && entries[i..][1..] == entries[i + 1..];
        thrown := Define(entries[i].0, entries[i].1);
        if thrown.Some? {
          return;
        }
      }
      assert entries[|entries|..] == [];
    }

    method RemoveMethod(name: string)
      requires Valid()
      modifies this
      ensures Abs() == RemoveMethodStep(old(Abs()), name) && Valid()
    {
      if name in methods {
        methods := methods - {name};
      }
    }

    method OnSignal(signal: string, listener: ListenerId) returns (d: Disposable)
      requires Valid()
      modifies this
      ensures Abs() == OnSignalStep(old(Abs()), signal, listener) && Valid()
      ensures d == Disposable(signal, listener)
    {
      signals := signals[signal := Listeners(Abs(), signal) + [listener]];
      d := Disposable(signal, listener);
    }

    method OffSignal(signal: string, listener: ListenerId)
      requires Valid()
      modifies this
      ensures Abs() == OffSignalStep(old(Abs()), signal, listener) && Valid()
    {
      OffSignalKeepsInv(Abs(), signal, listener);
      if signal in signals {
        var rest := RemoveLast(signals[signal], listener);
        if rest == [] {
          signals := signals - {signal};
        } else {
          signals := signals[signal := rest];
        }
      }
    }

    /** The `dispose` of what `onSignal` returned. */
    method Dispose(d: Disposable)
      requires Valid()
      modifies this
      ensures Abs() == OffSignalStep(old(Abs()), d.signal, d.listener) && Valid()
    {
      OffSignal(d.signal, d.listener);
    }

    method OffAllSignals(signal: Option<string>)
      requires Valid()
      modifies this
      ensures Abs() == OffAllSignalsStep(old(Abs()), signal) && Valid()
    {
      if signal.None? {
        signals := map[];
      } else {
        signals := signals - {signal.value};
      }
    }

    /** `request(method, params, options)`; `id` is the id the dispatched message carries. */
    method Request(name: string, params: Value, options: Options) returns (id: nat)
      requires Valid()
      modifies this
      ensures id == old(nextId) && id in status && status[id] == Pending
      ensures Abs() == RequestStep(old(Abs()), name, params, options) && Valid()
    {
      RequestKeepsInv(Abs(), name, params, options);
      id := Issue(name, params, options);
    }

    /** The bookkeeping of `request`: a fresh transaction, its timer, and the dispatched `rpc` message. */
    method Issue(name: string, params: Value, options: Options) returns (id: nat)
      modifies this
      ensures id == old(nextId) && id in status && status[id] == Pending
      ensures Abs() == RequestStep(old(Abs()), name, params, options)
    {
      var timeout := EffectiveTimeout(options, defaultTimeout);
      id := nextId;
      nextId := nextId + 1;
      txs := txs[id := Transaction(id, timeout > 0)];
      status := status[id := Pending];
      if timeout > 0 {
        timers := timers + {id};
      }
      outbox := outbox + [Outbound(Message(Rpc, Num(id), name, params), Undefined)];
    }

    method Signal(name: string, payload: Value)
      requires Valid()
      modifies this
      ensures Abs() == SignalStep(old(Abs()), name, payload) && Valid()
    {
      outbox := outbox + [Outbound(Message(MessageType.Signal, Undefined, name, payload), Undefined)];
    }

    /** `_raiseError(reason, undefined, context)`; the caller re-establishes `Valid()`. */
    method RaiseError(reason: string, context: Value)
      modifies this
      ensures Abs() == RaiseErrorStep(old(Abs()), reason, context)
    {
      var error := CreateError(Response.INTERNAL_ERROR, reason);
      errors := errors + [error];
      outbox := outbox + [Outbound(Message(Internal, Undefined, MSG_ERROR, error), context)];
    }

    /** `handle(message, context)`. */
    method Handle(m: Message, context: Value)
      requires Valid()
      modifies this
      ensures Abs() == HandleStep(old(Abs()), this, m, context) && Valid()
    {
      if m.kind.Signal? {
        HandleSignal(m, context);
      } else if m.kind.Rpc? {
        HandleRequest(m, context);
      } else {
        HandleInternal(m, context);
      }
    }

    method HandleSignal(m: Message, context: Value)
      requires Valid()
      modifies this
      ensures Abs() == HandleSignalStep(old(Abs()), m, context) && Valid()
    {
      HandleSignalKeepsInv(Abs(), m, context);
      if |Listeners(Abs(), "signal")| == 0 && |Listeners(Abs(), m.name)| == 0 {
        RaiseError("invalid signal " + m.name, context);
        return;
      }
      deliveries := deliveries + Deliveries(Listeners(Abs(), m.name), m.payload, context);
    }

    method HandleRequest(m: Message, context: Value)
      requires Valid()
      modifies this
      ensures Abs() == HandleRequestStep(old(Abs()), this, m, context) && Valid()
    {
      HandleRequestKeepsInv(Abs(), this, m, context);
      if m.name !in methods {
        outbox := outbox + [Outbound(Message(Internal, m.id, MSG_REJECT, MethodNotFound(m.name)), context)];
        return;
      }
      running := running[nextRun := Running(m.id, context, Execute(methods[m.name], this, m.payload))];
      nextRun := nextRun + 1;
    }

    method HandleInternal(m: Message, context: Value)
      requires Valid()
      modifies this
      ensures Abs() == HandleInternalStep(old(Abs()), m, context) && Valid()
    {
      HandleInternalKeepsInv(Abs(), m, context);
      if m.name == MSG_RESOLVE || m.name == MSG_REJECT {
        HandleSettlement(m, context);
      } else if m.name == MSG_ERROR {
        errors := errors + [m.payload];
      } else {
        RaiseError("unhandled internal message " + m.name, context);
      }
    }

    /** The `resolve` and `reject` branch of `_handleInternal`. */
    method HandleSettlement(m: Message, context: Value)
      requires m.name == MSG_RESOLVE || m.name == MSG_REJECT
      modifies this
      ensures Abs() == HandleInternalStep(old(Abs()), m, context)
    {
      ghost var s0 := Abs();
      if IdMissing(m.id) {
        assert HandleInternalStep(s0, m, context) == RaiseErrorStep(s0, MissingIdReason(), context);
        RaiseError(MissingIdReason(), context);
        return;
      }
      var key := TxKey(m.id);
      if key.None? || key.value !in txs {
        assert HandleInternalStep(s0, m, context) == RaiseErrorStep(s0, NoTransactionReason(m.id), context);
        RaiseError(NoTransactionReason(m.id), context);
        return;
      }
      assert HandleInternalStep(s0, m, context) == Settle(s0, key.value, ResponseOutcome(m));
      status := status[key.value := ResponseOutcome(m)];
      ClearTransaction(key.value);
    }

    /** `_clearTransaction`: cancels the transaction's timer, if armed, and deletes it. */
    method ClearTransaction(id: nat)
      requires id in txs
      modifies this
      ensures Abs() == old(Abs()).(timers := if old(txs)[id].armed then old(timers) - {id} else old(timers),
                                   txs := old(txs) - {id})
    {
      if txs[id].armed {
        timers := timers - {id};
      }
      txs := txs - {id};
    }

    /** `_handleTimeout`, run when the timer of transaction `id` fires. */
    method HandleTimeout(id: nat)
      requires Valid() && id in timers
      modifies this
      ensures Abs() == TimeoutStep(old(Abs()), id) && Valid()
    {
      TimeoutKeepsInv(Abs(), id);
      status := status[id := Rejected(Str(TIMED_OUT))];
      RaiseError("transaction " + NatToDecimal(id) + " timed out", Undefined);
      txs := txs - {id};
      timers := timers - {id};
    }

    /** The handler of the awaited request `run` completes; its reply is dispatched. */
    method HandlerCompletes(run: nat, c: Completion)
      requires Valid() && run in running
      modifies this
      ensures Abs() == CompletionStep(old(Abs()), run, c) && Valid()
    {
      CompletionKeepsInv(Abs(), run, c);
      outbox := outbox + [Outbound(Reply(running[run], c), running[run].context)];
      running := running - {run};
    }
  }
}
