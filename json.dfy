/**
 * The JSON framer: turns message values into JSON and back, tagging
 * instances of registered classes as `{$class, $props}` on the way out and
 * rebuilding them through their codec on the way in.
 *
 * JSON text is represented by its syntax tree `Json`; printing and parsing
 * the text itself are not modelled. Object properties are unordered here,
 * so when several nested codecs throw, the model reports the set of
 * exceptions one of which is thrown.
 */
module JsonFramer {
  import opened Wrappers
  import opened JsValues

  datatype Json =
    | JNull
    | JBool(b: bool)
    | JNum(n: int)
    | JStr(s: string)
    | JArr(items: seq<Json>)
    | JObj(props: map<string, Json>)

  /** A class constructor. */
  type Constructor = v: Value | v.Fn? witness Fn("", map[], map[])

  /**
   * A codec: the `DefaultCodec` the framer makes for a bare class, or a
   * user-supplied object with `clazz`, `encode` and `decode`. A user codec's
   * methods may throw, which is the `Err` case of their results.
   */
  datatype Codec =
    | DefaultCodec(target: Constructor)
    | CustomCodec(clazz: Value, encode: Value -> Result<Value, Value>, decode: Value -> Result<Value, Value>)

  type Codecs = map<string, Codec>

  const CLASS_KEY := "$class"
  const PROPS_KEY := "$props"

  /** Keys are canonical numerals, so distinct indexes give distinct keys. */
  lemma DecimalInjective(i: nat, j: nat)
    ensures NatToDecimal(i) == NatToDecimal(j) ==> i == j
  {
    DecimalIsCanonical(i);
    DecimalIsCanonical(j);
  }

  /**
   * The own enumerable string-keyed properties of `v`, which both
   * `Object.assign` and `for...in` over a parsed object visit. Methods a
   * class defines on its prototype are not enumerable, and neither are an
   * Error's own `message` and `stack`.
   */
  function Enumerable(v: Value): (m: map<string, Value>)
    ensures v.Obj? ==> m.Keys == v.own.Keys - v.hidden && forall k :: k in m ==> m[k] == v.own[k]
    ensures v.Obj? && v.hidden == {} ==> m == v.own
    ensures v.Arr? ==> forall i :: 0 <= i < |v.items| ==> NatToDecimal(i) in m && m[NatToDecimal(i)] == v.items[i]
  {
    match v
    case Obj(_, _, _, _) => EnumerableOwn(v)
    case Arr(items) =>
      assert forall i: nat, j: nat :: NatToDecimal(i) == NatToDecimal(j) ==> i == j by {
        forall i: nat, j: nat ensures NatToDecimal(i) == NatToDecimal(j) ==> i == j {
          DecimalInjective(i, j);
        }
      }
      map i | 0 <= i < |items| :: NatToDecimal(i) := items[i]
    case Str(s) =>
      assert forall i: nat, j: nat :: NatToDecimal(i) == NatToDecimal(j) ==> i == j by {
        forall i: nat, j: nat ensures NatToDecimal(i) == NatToDecimal(j) ==> i == j {
          DecimalInjective(i, j);
        }
      }
      map i | 0 <= i < |s| :: NatToDecimal(i) := Str([s[i]])
    case _ => map[]
  }

  // ---------------------------------------------------------------------
  // DefaultCodec
  // ---------------------------------------------------------------------

  /** `DefaultCodec.encode`: `Object.assign({}, input)`, a plain copy of the own enumerable properties. */
  function DefaultEncode(input: Value): (r: Value)
    ensures r.Obj? && r.ctor == "Object" && r.inherited == map[] && r.hidden == {}
    ensures input.Obj? ==> r.own.Keys == input.own.Keys - input.hidden
    ensures input.Obj? ==> forall k :: k in r.own ==> r.own[k] == input.own[k]
  {
    PlainObject(Enumerable(input))
  }

  function InvalidInputError(target: Constructor): Value {
    ErrorObject("Error", "Invalid input for decoding to " + target.name)
  }

  /**
   * `DefaultCodec.decode`: rejects a falsy input or one without a truthy
   * `$props`; otherwise `new clazz()` with every enumerable property of
   * `$props` assigned over what the constructor set.
   */
  function DefaultDecoded(target: Constructor, input: Value): (r: Result<Value, Value>)
    ensures r.Err? <==> !Truthy(input) || !Truthy(Get(input, PROPS_KEY))
    ensures r.Err? ==> r.error == InvalidInputError(target)
    ensures r.Ok? ==> r.value.Obj? && r.value.ctor == target.name && r.value.inherited == target.proto
    ensures r.Ok? ==> forall k :: k in r.value.own <==> k in target.init || k in Enumerable(Get(input, PROPS_KEY))
    ensures r.Ok? ==> forall k :: k in Enumerable(Get(input, PROPS_KEY)) ==> r.value.own[k] == Enumerable(Get(input, PROPS_KEY))[k]
    ensures r.Ok? ==> forall k :: k in target.init && k !in Enumerable(Get(input, PROPS_KEY)) ==> r.value.own[k] == target.init[k]
  {
    if !Truthy(input) || !Truthy(Get(input, PROPS_KEY)) then
      Err(InvalidInputError(target))
    else
      Ok(Obj(target.name, target.init + Enumerable(Get(input, PROPS_KEY)), target.proto, {}))
  }

  /** One more assignment of the loop: the property `k` moves from pending to assigned. */
  lemma AssignOneMore(init: map<string, Value>, props: map<string, Value>, pending: set<string>, k: string)
    requires k in pending && pending <= props.Keys
    ensures (init + (props - pending))[k := props[k]] == init + (props - (pending - {k}))
  {
  }

  /** The `for...in` loop of `DefaultCodec.decode`, assigning one property at a time. */
  method DefaultDecode(target: Constructor, input: Value) returns (r: Result<Value, Value>)
    ensures r == DefaultDecoded(target, input)
  {
    if !Truthy(input) || !Truthy(Get(input, PROPS_KEY)) {
      return Err(InvalidInputError(target));
    }
    var props := Enumerable(Get(input, PROPS_KEY));
    var own := target.init;
    var pending := props.Keys;
    while pending != {}
      invariant pending <= props.Keys
      invariant own == target.init + (props - pending)
      decreases |pending|
    {
      var k :| k in pending;
      AssignOneMore(target.init, props, pending, k);
      own := own[k := props[k]];
      pending := pending - {k};
    }
    assert props - {} == props;
    r := Ok(Obj(target.name, own, target.proto, {}));
  }

  /** What a codec's `encode` makes of an instance. */
  function CodecEncode(c: Codec, v: Value): Result<Value, Value> {
    match c
    case DefaultCodec(_) => Ok(DefaultEncode(v))
    case CustomCodec(_, encode, _) => encode(v)
  }

  /** What a codec's `decode` makes of a tagged object. */
  function CodecDecode(c: Codec, v: Value): Result<Value, Value> {
    match c
    case DefaultCodec(target) => DefaultDecoded(target, v)
    case CustomCodec(_, _, decode) => decode(v)
  }

  // ---------------------------------------------------------------------
  // register
  // ---------------------------------------------------------------------

  /** An argument of `register`: a codec object, or any other value. */
  datatype Registrant = AsCodec(codec: Codec) | AsValue(v: Value)

  /**
   * A value passed as `AsValue` is not shaped like a codec: either it
   * throws on the `clazz` read, or its `clazz` is null or undefined. Codec
   * objects are passed as `AsCodec`.
   */
  predicate NotCodecShaped(a: Registrant) {
    a.AsValue? && !IsNullish(a.v) ==> IsNullish(Get(a.v, "clazz"))
  }

  function CannotReadClazz(v: Value): Value {
    ErrorObject("TypeError", "Cannot read properties of " + ToStr(v) + " (reading 'clazz')")
  }

  /** The key `register` files a codec under: `String(codec.clazz.name)`. */
  function CodecKey(clazz: Value): string
    requires !IsNullish(clazz)
  {
    ToStr(Get(clazz, "name"))
  }

  /**
   * One turn of `register`'s loop: a codec (non-null `clazz`) is filed under
   * its class name, a function gets a `DefaultCodec` under its own name,
   * `null` and `undefined` throw, anything else is skipped.
   */
  function RegisterOne(codecs: Codecs, a: Registrant): Result<Codecs, Value>
    requires NotCodecShaped(a)
  {
    match a
    case AsCodec(c) =>
      var clazz := if c.DefaultCodec? then c.target else c.clazz;
      if IsNullish(clazz) then Ok(codecs) else Ok(codecs[CodecKey(clazz) := c])
    case AsValue(v) =>
      if IsNullish(v) then Err(CannotReadClazz(v))
      else if v.Fn? then Ok(codecs[v.name := DefaultCodec(v)])
      else Ok(codecs)
  }

  /** `register(...args)`: registers in order, stopping at the first argument that throws. */
  function RegisterAll(codecs: Codecs, args: seq<Registrant>): (r: (Codecs, Option<Value>))
    requires forall i :: 0 <= i < |args| ==> NotCodecShaped(args[i])
    decreases |args|
  {
    if args == [] then (codecs, None)
    else
      match RegisterOne(codecs, args[0])
      case Err(e) => (codecs, Some(e))
      case Ok(next) => RegisterAll(next, args[1..])
  }

  /** Registering a class files a `DefaultCodec` for it under its name and touches no other name. */
  lemma RegisterClass(codecs: Codecs, f: Constructor)
    ensures var r := RegisterAll(codecs, [AsValue(f)]);
      && r.1 == None && f.name in r.0 && r.0[f.name] == DefaultCodec(f)
      && forall k :: k != f.name ==> (k in r.0 <==> k in codecs) && (k in codecs ==> r.0[k] == codecs[k])
  {
    assert [AsValue(f)][1..] == [];
  }

  /** The codec registering `a` files: a codec object as it is, a bare class under its `DefaultCodec`. */
  function Filed(a: Registrant): Codec
    requires a.AsCodec? || a.v.Fn?
  {
    if a.AsCodec? then a.codec else DefaultCodec(a.v)
  }

  /** An argument that registers something under `k` files `Filed(a)` there and touches no other name. */
  lemma RegisterOneFiles(codecs: Codecs, a: Registrant, k: string)
    requires NotCodecShaped(a) && Names(a, k)
    ensures RegisterOne(codecs, a) == Ok(codecs[k := Filed(a)])
  {
  }

  /**
   * Of two registrations under the same name, a class or a codec object in
   * either order, the later one is kept.
   */
  lemma {:induction false} LastRegistrationWins(codecs: Codecs, a: Registrant, b: Registrant, k: string)
    requires NotCodecShaped(a) && NotCodecShaped(b) && Names(a, k) && Names(b, k)
    ensures RegisterAll(codecs, [a, b]) == (codecs[k := Filed(b)], None)
  {
    var args := [a, b];
    var afterA := codecs[k := Filed(a)];
    RegisterOneFiles(codecs, a, k);
    RegisterOneFiles(afterA, b, k);
    assert args[1..] == [b] && args[1..][0] == b && args[1..][1..] == [];
    assert RegisterAll(afterA, args[1..]) == RegisterAll(afterA[k := Filed(b)], []);
    assert afterA[k := Filed(b)] == codecs[k := Filed(b)];
  }

  /** A `null` or `undefined` argument throws, and the arguments after it are not registered. */
  lemma {:induction false} NullishStopsRegistration(codecs: Codecs, args: seq<Registrant>, i: nat)
    requires forall j :: 0 <= j < |args| ==> NotCodecShaped(args[j])
    requires i < |args| && args[i].AsValue? && IsNullish(args[i].v)
    requires forall j :: 0 <= j < i ==> !(args[j].AsValue? && IsNullish(args[j].v))
    ensures RegisterAll(codecs, args) == (RegisterAll(codecs, args[..i]).0, Some(CannotReadClazz(args[i].v)))
    decreases i
  {
    if i > 0 {
      assert args[..i][0] == args[0];
      assert args[..i][1..] == args[1..][..i - 1];
      var next := RegisterOne(codecs, args[0]);
      NullishStopsRegistration(next.value, args[1..], i - 1);
    } else {
      assert args[..0] == [];
    }
  }

  /** Names no argument registers keep their codec. */
  lemma {:induction false} RegisterKeepsOtherNames(codecs: Codecs, args: seq<Registrant>, k: string)
    requires forall i :: 0 <= i < |args| ==> NotCodecShaped(args[i])
    requires forall i :: 0 <= i < |args| ==> !Names(args[i], k)
    ensures var r := RegisterAll(codecs, args).0;
      (k in r <==> k in codecs) && (k in codecs ==> r[k] == codecs[k])
    decreases |args|
  {
    if args != [] {
      match RegisterOne(codecs, args[0])
      case Err(_) =>
      case Ok(next) =>
        assert !Names(args[0], k);
        RegisterKeepsOtherNames(next, args[1..], k);
    }
  }

  /** Whether registering `a` files something under `k`. */
  predicate Names(a: Registrant, k: string) {
    match a
    case AsCodec(c) =>
      var clazz := if c.DefaultCodec? then c.target else c.clazz;
      !IsNullish(clazz) && CodecKey(clazz) == k
    case AsValue(v) => v.Fn? && v.name == k
  }

  /** The framer object; `register` updates its codec table in place. */
  class Framer {
    var codecs: Codecs

    constructor ()
      ensures codecs == map[]
    {
      codecs := map[];
    }

    /** `register(...args)`; `thrown` is the exception that ends the loop early, if any. */
    method Register(args: seq<Registrant>) returns (thrown: Option<Value>)
      requires forall i :: 0 <= i < |args| ==> NotCodecShaped(args[i])
      modifies this
      ensures (codecs, thrown) == RegisterAll(old(codecs), args)
    {
      for i := 0 to |args|
        invariant RegisterAll(codecs, args[i..]) == RegisterAll(old(codecs), args)
      {
        assert args[i..][0] == args[i] && args[i..][1..] == args[i + 1..];
        var a := args[i];
        match a
        case AsCodec(c) =>
          var clazz := if c.DefaultCodec? then c.target else c.clazz;
          if !IsNullish(clazz) {
            codecs := codecs[CodecKey(clazz) := c];
          }
        case AsValue(v) =>
          if IsNullish(v) {
            return Some(CannotReadClazz(v));
          } else if v.Fn? {
            codecs := codecs[v.name := DefaultCodec(v)];
          }
      }
      assert args[|args|..] == [];
      thrown := None;
    }
  }

  // ---------------------------------------------------------------------
  // encode: JSON.stringify with the tagging replacer
  // ---------------------------------------------------------------------

  /** The exception the call stack gives out with when tagging nests without end. */
  const STACK_OVERFLOW := ErrorObject("RangeError", "Maximum call stack size exceeded")

  /** `Buffer.from(undefined)`, when there is no JSON text to write. */
  const NOTHING_TO_WRITE := ErrorObject("TypeError", "The first argument must be of type string. Received undefined")

  /** The replacer tags a truthy value whose constructor name has a codec. */
  predicate IsTagged(codecs: Codecs, v: Value) {
    Truthy(v) && CtorName(v) in codecs
  }

  /** The replacer's result for a tagged value. */
  function Wrapper(name: string, props: Value): Value {
    PlainObject(map[CLASS_KEY := Str(name), PROPS_KEY := props])
  }

  function SeqFailures<T>(parts: seq<Result<T, set<Value>>>): set<Value> {
    set i, e | 0 <= i < |parts| && parts[i].Err? && e in parts[i].error :: e
  }

  function MapFailures<T>(parts: map<string, Result<T, set<Value>>>): set<Value> {
    set k, e | k in parts && parts[k].Err? && e in parts[k].error :: e
  }

  /**
   * The value `v` at some key of its holder, after the replacer: `None` when
   * JSON.stringify writes nothing for it (undefined or a function), `Err`
   * with the exceptions one of which is thrown. `fuel` is the nesting of
   * tagging the call stack allows.
   */
  function Stringify(codecs: Codecs, v: Value, fuel: nat): (r: Result<Option<Json>, set<Value>>)
    ensures r.Err? ==> r.error != {}
    decreases fuel, v, 1
  {
    if IsTagged(codecs, v) then
      if fuel == 0 then Err({STACK_OVERFLOW})
      else
        match CodecEncode(codecs[CtorName(v)], v)
        case Err(e) => Err({e})
        case Ok(props) => Serialize(codecs, Wrapper(CtorName(v), props), fuel - 1)
    else
      Serialize(codecs, v, fuel)
  }

  /** JSON.stringify of a value the replacer has already seen; its children go through the replacer. */
  function Serialize(codecs: Codecs, w: Value, fuel: nat): (r: Result<Option<Json>, set<Value>>)
    ensures r.Err? ==> r.error != {}
    decreases fuel, w, 0
  {
    match w
    case Undefined => Ok(None)
    case Fn(_, _, _) => Ok(None)
    case Null => Ok(Some(JNull))
    case Bool(b) => Ok(Some(JBool(b)))
    case Num(n) => Ok(Some(JNum(n)))
    case Str(s) => Ok(Some(JStr(s)))
    case Arr(items) =>
      var parts := seq(|items|, i requires 0 <= i < |items| => Stringify(codecs, items[i], fuel));
      if forall i :: 0 <= i < |parts| ==> parts[i].Ok? then
        Ok(Some(JArr(seq(|parts|, i requires 0 <= i < |parts| && parts[i].Ok? =>
          if parts[i].value.Some? then parts[i].value.value else JNull))))
      else
        var i :| 0 <= i < |parts| && parts[i].Err?;
        var e :| e in parts[i].error;
        assert e in SeqFailures(parts);
        Err(SeqFailures(parts))
    case Obj(_, own, _, hidden) =>
      var parts := map k | k in own && k !in hidden :: Stringify(codecs, own[k], fuel);
      if forall k :: k in parts ==> parts[k].Ok? then
        Ok(Some(JObj(map k | k in parts && parts[k].Ok? && parts[k].value.Some? :: parts[k].value.value)))
      else
        var k :| k in parts && parts[k].Err?;
        var e :| e in parts[k].error;
        assert e in MapFailures(parts);
        Err(MapFailures(parts))
  }

  /** `framer.encode(input)`: the JSON written, or the exceptions one of which is thrown. */
  function Encode(codecs: Codecs, input: Value, fuel: nat): (r: Result<Json, set<Value>>)
    ensures r.Err? ==> r.error != {}
  {
    match Stringify(codecs, input, fuel)
    case Err(e) => Err(e)
    case Ok(None) => Err({NOTHING_TO_WRITE})
    case Ok(Some(j)) => Ok(j)
  }

  // ---------------------------------------------------------------------
  // decode: JSON.parse with the reviving reviver
  // ---------------------------------------------------------------------

  /** A parsed value the reviver hands to a codec: truthy, with a truthy `$class` that has a codec. */
  predicate IsRevived(codecs: Codecs, v: Value) {
    Truthy(v) && Truthy(Get(v, CLASS_KEY)) && ToStr(Get(v, CLASS_KEY)) in codecs
  }

  function Reviver(codecs: Codecs, v: Value): (r: Result<Value, set<Value>>)
    ensures !IsRevived(codecs, v) ==> r == Ok(v)
    ensures r.Err? ==> r.error != {}
  {
    if IsRevived(codecs, v) then
      match CodecDecode(codecs[ToStr(Get(v, CLASS_KEY))], v)
      case Err(e) => Err({e})
      case Ok(x) => Ok(x)
    else
      Ok(v)
  }

  /**
   * JSON.parse with the reviver, bottom-up: children first, then the
   * reviver on the rebuilt value. An object property the reviver turns into
   * `undefined` is deleted; in an array it leaves an `undefined` slot.
   */
  function Revive(codecs: Codecs, j: Json): (r: Result<Value, set<Value>>)
    ensures r.Err? ==> r.error != {}
    decreases j
  {
    match j
    case JNull => Reviver(codecs, Null)
    case JBool(b) => Reviver(codecs, Bool(b))
    case JNum(n) => Reviver(codecs, Num(n))
    case JStr(s) => Reviver(codecs, Str(s))
    case JArr(items) =>
      var parts := seq(|items|, i requires 0 <= i < |items| => Revive(codecs, items[i]));
      if forall i :: 0 <= i < |parts| ==> parts[i].Ok? then
        Reviver(codecs, Arr(seq(|parts|, i requires 0 <= i < |parts| && parts[i].Ok? => parts[i].value)))
      else
        var i :| 0 <= i < |parts| && parts[i].Err?;
        var e :| e in parts[i].error;
        assert e in SeqFailures(parts);
        Err(SeqFailures(parts))
    case JObj(props) =>
      var parts := map k | k in props :: Revive(codecs, props[k]);
      if forall k :: k in parts ==> parts[k].Ok? then
        Reviver(codecs, PlainObject(map k | k in parts && parts[k].Ok? && parts[k].value != Undefined :: parts[k].value))
      else
        var k :| k in parts && parts[k].Err?;
        var e :| e in parts[k].error;
        assert e in MapFailures(parts);
        Err(MapFailures(parts))
  }

  /** `framer.decode(input)`, from the parsed JSON. */
  function Decode(codecs: Codecs, input: Json): (r: Result<Value, set<Value>>)
    ensures r.Err? ==> r.error != {}
  {
    Revive(codecs, input)
  }

  // ---------------------------------------------------------------------
  // Round trips
  // ---------------------------------------------------------------------

  /** No codec is registered under the constructor name of a JSON data value. */
  predicate NoBuiltinCodecs(codecs: Codecs) {
    "Object" !in codecs && "Array" !in codecs && "Number" !in codecs
    && "String" !in codecs && "Boolean" !in codecs
  }

  /** Data JSON carries as it is: null, booleans, numbers, strings, arrays, and plain objects without a `$class` key. */
  predicate PlainData(v: Value)
    decreases v
  {
    match v
    case Null => true
    case Bool(_) => true
    case Num(_) => true
    case Str(_) => true
    case Arr(items) => forall i :: 0 <= i < |items| ==> PlainData(items[i])
    case Obj(ctor, own, inherited, hidden) =>
      ctor == "Object" && inherited == map[] && hidden == {} && CLASS_KEY !in own
      && forall k :: k in own ==> PlainData(own[k])
    case _ => false
  }

  /** The JSON a data value stands for, independent of the framer. */
  function ToJson(v: Value): Json
    requires PlainData(v)
    decreases v
  {
    match v
    case Null => JNull
    case Bool(b) => JBool(b)
    case Num(n) => JNum(n)
    case Str(s) => JStr(s)
    case Arr(items) => JArr(seq(|items|, i requires 0 <= i < |items| => ToJson(items[i])))
    case Obj(_, own, _, _) => JObj(map k | k in own :: ToJson(own[k]))
  }

  /** An array whose items all encode serializes to the array of their JSON. */
  lemma SerializeArray(codecs: Codecs, items: seq<Value>, fuel: nat, js: seq<Json>)
    requires |js| == |items|
    requires forall i :: 0 <= i < |items| ==> Stringify(codecs, items[i], fuel) == Ok(Some(js[i]))
    ensures Serialize(codecs, Arr(items), fuel) == Ok(Some(JArr(js)))
  {
    var parts := seq(|items|, i requires 0 <= i < |items| => Stringify(codecs, items[i], fuel));
    assert seq(|parts|, i requires 0 <= i < |parts| && parts[i].Ok? =>
        if parts[i].value.Some? then parts[i].value.value else JNull) == js;
  }

  /** An object whose properties all encode serializes to the object of their JSON. */
  lemma SerializeObject(codecs: Codecs, w: Value, fuel: nat, js: map<string, Json>)
    requires w.Obj? && js.Keys == w.own.Keys - w.hidden
    requires forall k :: k in js ==> Stringify(codecs, w.own[k], fuel) == Ok(Some(js[k]))
    ensures Serialize(codecs, w, fuel) == Ok(Some(JObj(js)))
  {
    var parts := map k | k in w.own && k !in w.hidden :: Stringify(codecs, w.own[k], fuel);
    assert (map k | k in parts && parts[k].Ok? && parts[k].value.Some? :: parts[k].value.value) == js;
  }

  /** The replacer leaves data alone: encoding it writes its JSON, whatever the stack allows. */
  lemma {:induction false} StringifyPlain(codecs: Codecs, v: Value, fuel: nat)
    requires NoBuiltinCodecs(codecs) && PlainData(v)
    ensures Stringify(codecs, v, fuel) == Ok(Some(ToJson(v)))
    decreases v
  {
    assert !IsTagged(codecs, v);
    match v
    case Arr(items) =>
      forall i | 0 <= i < |items|
        ensures Stringify(codecs, items[i], fuel) == Ok(Some(ToJson(v).items[i]))
      {
        StringifyPlain(codecs, items[i], fuel);
      }
      SerializeArray(codecs, items, fuel, ToJson(v).items);
    case Obj(_, own, _, _) =>
      forall k | k in own
        ensures Stringify(codecs, own[k], fuel) == Ok(Some(ToJson(v).props[k]))
      {
        StringifyPlain(codecs, own[k], fuel);
      }
      SerializeObject(codecs, v, fuel, ToJson(v).props);
    case _ =>
  }

  /** An array of JSON whose items all revive is handed to the reviver as the array of their values. */
  lemma ReviveArray(codecs: Codecs, js: seq<Json>, vs: seq<Value>)
    requires |js| == |vs|
    requires forall i :: 0 <= i < |js| ==> Revive(codecs, js[i]) == Ok(vs[i])
    ensures Revive(codecs, JArr(js)) == Reviver(codecs, Arr(vs))
  {
    var parts := seq(|js|, i requires 0 <= i < |js| => Revive(codecs, js[i]));
    assert seq(|parts|, i requires 0 <= i < |parts| && parts[i].Ok? => parts[i].value) == vs;
  }

  /** A JSON object whose properties all revive to defined values is handed to the reviver as the plain object of those values. */
  lemma ReviveObject(codecs: Codecs, js: map<string, Json>, vs: map<string, Value>)
    requires js.Keys == vs.Keys
    requires forall k :: k in js ==> Revive(codecs, js[k]) == Ok(vs[k]) && vs[k] != Undefined
    ensures Revive(codecs, JObj(js)) == Reviver(codecs, PlainObject(vs))
  {
    var parts := map k | k in js :: Revive(codecs, js[k]);
    assert (map k | k in parts && parts[k].Ok? && parts[k].value != Undefined :: parts[k].value) == vs;
  }

  /** The reviver leaves data alone: decoding its JSON gives the data back. */
  lemma {:induction false} RevivePlain(codecs: Codecs, v: Value)
    requires PlainData(v)
    ensures Revive(codecs, ToJson(v)) == Ok(v)
    decreases v
  {
    match v
    case Arr(items) =>
      var js := ToJson(v).items;
      forall i | 0 <= i < |js|
        ensures Revive(codecs, js[i]) == Ok(items[i])
      {
        RevivePlain(codecs, items[i]);
      }
      ReviveArray(codecs, js, items);
      assert !IsRevived(codecs, v);
    case Obj(_, own, _, _) =>
      var js := ToJson(v).props;
      forall k | k in js
        ensures Revive(codecs, js[k]) == Ok(own[k]) && own[k] != Undefined
      {
        RevivePlain(codecs, own[k]);
      }
      ReviveObject(codecs, js, own);
      assert !IsRevived(codecs, v);
    case _ =>
  }

  /** A data message survives the framer unchanged. */
  lemma PlainRoundTrip(codecs: Codecs, v: Value, fuel: nat)
    requires NoBuiltinCodecs(codecs) && PlainData(v)
    ensures Encode(codecs, v, fuel) == Ok(ToJson(v))
    ensures Decode(codecs, ToJson(v)) == Ok(v)
  {
    StringifyPlain(codecs, v, fuel);
    RevivePlain(codecs, v);
  }

  /** The JSON an instance of a class with a codec is written as, when its codec encodes it to `props`. */
  function TaggedJson(name: string, props: Value): Json
    requires PlainData(props)
  {
    JObj(map[CLASS_KEY := JStr(name), PROPS_KEY := ToJson(props)])
  }

  /** The wrapper `{$class, $props}` around plain data is written as it stands. */
  lemma SerializeWrapper(codecs: Codecs, name: string, props: Value, fuel: nat)
    requires NoBuiltinCodecs(codecs) && PlainData(props)
    ensures Serialize(codecs, Wrapper(name, props), fuel) == Ok(Some(TaggedJson(name, props)))
  {
    StringifyPlain(codecs, Str(name), fuel);
    StringifyPlain(codecs, props, fuel);
    SerializeObject(codecs, Wrapper(name, props), fuel, TaggedJson(name, props).props);
  }

  /**
   * An instance of a class registered with any codec, the default one or a
   * user-supplied one, is written as `{$class: name, $props}` where `$props`
   * is what that codec's `encode` returns; an `encode` that throws makes
   * encoding throw the same exception.
   */
  lemma EncodeTagged(codecs: Codecs, v: Value, fuel: nat)
    requires NoBuiltinCodecs(codecs) && v.Obj? && v.ctor in codecs && fuel > 0
    ensures CodecEncode(codecs[v.ctor], v).Err? ==>
      Encode(codecs, v, fuel) == Err({CodecEncode(codecs[v.ctor], v).error})
    ensures CodecEncode(codecs[v.ctor], v).Ok? && PlainData(CodecEncode(codecs[v.ctor], v).value) ==>
      Encode(codecs, v, fuel) == Ok(TaggedJson(v.ctor, CodecEncode(codecs[v.ctor], v).value))
  {
    assert IsTagged(codecs, v);
    match CodecEncode(codecs[v.ctor], v)
    case Err(_) =>
    case Ok(props) =>
      if PlainData(props) {
        SerializeWrapper(codecs, v.ctor, props, fuel - 1);
      }
  }

  /** An instance of a class registered with a user codec: `$props` is exactly what its `encode` returns. */
  lemma EncodeCustomInstance(codecs: Codecs, v: Value, props: Value, fuel: nat)
    requires NoBuiltinCodecs(codecs) && v.Obj? && v.ctor in codecs && codecs[v.ctor].CustomCodec?
    requires fuel > 0 && codecs[v.ctor].encode(v) == Ok(props) && PlainData(props)
    ensures Encode(codecs, v, fuel) == Ok(TaggedJson(v.ctor, props))
  {
    EncodeTagged(codecs, v, fuel);
  }

  /** An instance of a class registered with its default codec is written as `{$class, $props}` of its own fields. */
  lemma EncodeInstance(codecs: Codecs, c: Constructor, own: map<string, Value>, fuel: nat)
    requires NoBuiltinCodecs(codecs) && c.name in codecs && codecs[c.name] == DefaultCodec(c)
    requires fuel > 0 && PlainData(PlainObject(own))
    ensures Encode(codecs, Obj(c.name, own, c.proto, {}), fuel) == Ok(TaggedJson(c.name, PlainObject(own)))
  {
    var o := Obj(c.name, own, c.proto, {});
    assert CodecEncode(codecs[c.name], o) == Ok(PlainObject(own));
    EncodeTagged(codecs, o, fuel);
  }

  /**
   * An instance of a class with no codec passes the replacer untouched and is
   * written like the plain object of its own enumerable properties; what it
   * inherits, its methods among them, is not written.
   */
  lemma StringifyUnregistered(codecs: Codecs, v: Value, fuel: nat)
    requires NoBuiltinCodecs(codecs) && v.Obj? && v.ctor !in codecs && PlainData(PlainObject(Enumerable(v)))
    ensures Stringify(codecs, v, fuel) == Ok(Some(ToJson(PlainObject(Enumerable(v)))))
  {
    assert !IsTagged(codecs, v);
    forall k | k in Enumerable(v)
      ensures Stringify(codecs, v.own[k], fuel) == Ok(Some(ToJson(PlainObject(Enumerable(v))).props[k]))
    {
      StringifyPlain(codecs, Enumerable(v)[k], fuel);
    }
    SerializeObject(codecs, v, fuel, ToJson(PlainObject(Enumerable(v))).props);
  }

  /** Held in an array, among other data, an instance of a class with no codec is still written as plain data. */
  lemma EncodeUnregisteredInArray(codecs: Codecs, pre: seq<Value>, v: Value, post: seq<Value>, fuel: nat)
    requires NoBuiltinCodecs(codecs) && v.Obj? && v.ctor !in codecs && PlainData(PlainObject(Enumerable(v)))
    requires PlainData(Arr(pre)) && PlainData(Arr(post))
    ensures Encode(codecs, Arr(pre + [v] + post), fuel)
      == Ok(JArr(ToJson(Arr(pre)).items + [ToJson(PlainObject(Enumerable(v)))] + ToJson(Arr(post)).items))
  {
    var items := pre + [v] + post;
    var js := ToJson(Arr(pre)).items + [ToJson(PlainObject(Enumerable(v)))] + ToJson(Arr(post)).items;
    forall i | 0 <= i < |items|
      ensures Stringify(codecs, items[i], fuel) == Ok(Some(js[i]))
    {
      if i < |pre| {
        assert items[i] == pre[i];
        StringifyPlain(codecs, pre[i], fuel);
      } else if i == |pre| {
        StringifyUnregistered(codecs, v, fuel);
      } else {
        assert items[i] == post[i - |pre| - 1];
        StringifyPlain(codecs, post[i - |pre| - 1], fuel);
      }
    }
    SerializeArray(codecs, items, fuel, js);
    assert !IsTagged(codecs, Arr(items));
  }

  /** Held under a key of a plain object, an instance of a class with no codec is still written as plain data. */
  lemma EncodeUnregisteredInObject(codecs: Codecs, own: map<string, Value>, key: string, v: Value, fuel: nat)
    requires NoBuiltinCodecs(codecs) && v.Obj? && v.ctor !in codecs && PlainData(PlainObject(Enumerable(v)))
    requires PlainData(PlainObject(own))
    ensures Encode(codecs, PlainObject(own[key := v]), fuel)
      == Ok(JObj(ToJson(PlainObject(own)).props[key := ToJson(PlainObject(Enumerable(v)))]))
  {
    var holder := PlainObject(own[key := v]);
    var js := ToJson(PlainObject(own)).props[key := ToJson(PlainObject(Enumerable(v)))];
    forall k | k in holder.own
      ensures Stringify(codecs, holder.own[k], fuel) == Ok(Some(js[k]))
    {
      if k == key {
        StringifyUnregistered(codecs, v, fuel);
      } else {
        StringifyPlain(codecs, own[k], fuel);
      }
    }
    SerializeObject(codecs, holder, fuel, js);
    assert !IsTagged(codecs, holder);
  }

  /**
   * An Error of a class with no codec, such as a handler's rejection reason
   * forwarded as a payload, is written as `{}`, and a default codec copies it
   * as `{}`: its own `message` and `stack` are not enumerable.
   */
  lemma ErrorWrittenEmpty(codecs: Codecs, kind: string, message: string, fuel: nat)
    requires NoBuiltinCodecs(codecs) && kind !in codecs
    ensures Encode(codecs, ErrorObject(kind, message), fuel) == Ok(JObj(map[]))
    ensures DefaultEncode(ErrorObject(kind, message)) == PlainObject(map[])
  {
    var e := ErrorObject(kind, message);
    assert Enumerable(e) == map[];
    StringifyUnregistered(codecs, e, fuel);
    assert ToJson(PlainObject(map[])) == JObj(map[]);
  }

  /**
   * `{$class, $props}` naming a class registered with its default codec is
   * read back as a fresh instance whose own properties are the
   * constructor's, overwritten by those in `$props`.
   */
  lemma DecodeInstance(codecs: Codecs, c: Constructor, own: map<string, Value>)
    requires c.name in codecs && codecs[c.name] == DefaultCodec(c)
    requires c.name != "" && PlainData(PlainObject(own))
    ensures Decode(codecs, TaggedJson(c.name, PlainObject(own))) == Ok(Obj(c.name, c.init + own, c.proto, {}))
  {
    var props := PlainObject(own);
    var w := Wrapper(c.name, props);
    RevivePlain(codecs, Str(c.name));
    RevivePlain(codecs, props);
    ReviveObject(codecs, TaggedJson(c.name, PlainObject(own)).props, w.own);
    assert IsRevived(codecs, w);
    assert DefaultDecoded(c, w) == Ok(Obj(c.name, c.init + own, c.proto, {}));
  }

  /** A `{$class, $props}` object whose class has no codec is left as the plain object it is. */
  lemma UnregisteredClassStaysPlain(codecs: Codecs, name: string, own: map<string, Value>)
    requires name !in codecs && PlainData(PlainObject(own))
    ensures Decode(codecs, TaggedJson(name, PlainObject(own))) == Ok(Wrapper(name, PlainObject(own)))
  {
    var w := Wrapper(name, PlainObject(own));
    RevivePlain(codecs, Str(name));
    RevivePlain(codecs, PlainObject(own));
    ReviveObject(codecs, TaggedJson(name, PlainObject(own)).props, w.own);
    assert !IsRevived(codecs, w);
  }

  /**
   * An instance that holds every property its constructor sets survives the
   * framer unchanged.
   */
  lemma InstanceRoundTrip(codecs: Codecs, c: Constructor, own: map<string, Value>, fuel: nat)
    requires NoBuiltinCodecs(codecs) && c.name in codecs && codecs[c.name] == DefaultCodec(c)
    requires c.name != "" && fuel > 0 && PlainData(PlainObject(own))
    requires c.init.Keys <= own.Keys
    ensures Encode(codecs, Obj(c.name, own, c.proto, {}), fuel).Ok?
    ensures Decode(codecs, Encode(codecs, Obj(c.name, own, c.proto, {}), fuel).value) == Ok(Obj(c.name, own, c.proto, {}))
  {
    EncodeInstance(codecs, c, own, fuel);
    DecodeInstance(codecs, c, own);
    assert c.init + own == own;
  }

  /**
   * An instance of a class registered with its default codec: its class is
   * the one filed under its constructor name, it holds every property the
   * constructor sets, and its own properties are data.
   */
  predicate IsDefaultInstance(codecs: Codecs, v: Value) {
    && v.Obj? && v.hidden == {} && v.ctor in codecs && codecs[v.ctor].DefaultCodec?
    && var c := codecs[v.ctor].target;
    && c.name == v.ctor && c.name != "" && c.proto == v.inherited
    && c.init.Keys <= v.own.Keys && PlainData(PlainObject(v.own))
  }

  /**
   * A message the framer carries: data, with instances of classes
   * registered with their default codec anywhere inside it.
   */
  predicate Framable(codecs: Codecs, v: Value)
    decreases v
  {
    match v
    case Arr(items) => forall i :: 0 <= i < |items| ==> Framable(codecs, items[i])
    case Obj(ctor, own, inherited, hidden) =>
      if ctor == "Object" then
        inherited == map[] && hidden == {} && CLASS_KEY !in own && forall k :: k in own ==> Framable(codecs, own[k])
      else
        IsDefaultInstance(codecs, v)
    case _ => PlainData(v)
  }

  /** The JSON such a message stands for: each instance is replaced in place by its `{$class, $props}`. */
  function FramedJson(codecs: Codecs, v: Value): Json
    requires Framable(codecs, v)
    decreases v
  {
    match v
    case Arr(items) => JArr(seq(|items|, i requires 0 <= i < |items| => FramedJson(codecs, items[i])))
    case Obj(ctor, own, _, _) =>
      if ctor == "Object" then JObj(map k | k in own :: FramedJson(codecs, own[k]))
      else TaggedJson(ctor, PlainObject(own))
    case Null => JNull
    case Bool(b) => JBool(b)
    case Num(n) => JNum(n)
    case Str(str) => JStr(str)
  }

  /** Data is a framable message with no instances in it. */
  lemma {:induction false} PlainIsFramable(codecs: Codecs, v: Value)
    requires PlainData(v)
    ensures Framable(codecs, v) && FramedJson(codecs, v) == ToJson(v)
    decreases v
  {
    match v
    case Arr(items) =>
      forall i | 0 <= i < |items|
        ensures Framable(codecs, items[i]) && FramedJson(codecs, items[i]) == ToJson(items[i])
      {
        PlainIsFramable(codecs, items[i]);
      }
    case Obj(_, own, _, _) =>
      forall k | k in own
        ensures Framable(codecs, own[k]) && FramedJson(codecs, own[k]) == ToJson(own[k])
      {
        PlainIsFramable(codecs, own[k]);
      }
    case _ =>
  }

  /** The replacer tags every registered instance where it stands, at any depth. */
  lemma {:induction false} StringifyFramed(codecs: Codecs, v: Value, fuel: nat)
    requires NoBuiltinCodecs(codecs) && Framable(codecs, v) && fuel > 0
    ensures Stringify(codecs, v, fuel) == Ok(Some(FramedJson(codecs, v)))
    decreases v
  {
    match v
    case Arr(items) =>
      forall i | 0 <= i < |items|
        ensures Stringify(codecs, items[i], fuel) == Ok(Some(FramedJson(codecs, v).items[i]))
      {
        StringifyFramed(codecs, items[i], fuel);
      }
      SerializeArray(codecs, items, fuel, FramedJson(codecs, v).items);
      assert !IsTagged(codecs, v);
      assert Stringify(codecs, v, fuel) == Serialize(codecs, v, fuel);
    case Obj(ctor, own, _, _) =>
      if ctor == "Object" {
        forall k | k in own
          ensures Stringify(codecs, own[k], fuel) == Ok(Some(FramedJson(codecs, v).props[k]))
        {
          StringifyFramed(codecs, own[k], fuel);
        }
        SerializeObject(codecs, v, fuel, FramedJson(codecs, v).props);
        assert !IsTagged(codecs, v);
        assert Stringify(codecs, v, fuel) == Serialize(codecs, v, fuel);
      } else {
        StringifyInstance(codecs, v, fuel);
      }
    case Null | Bool(_) | Num(_) | Str(_) =>
      StringifyPlain(codecs, v, fuel);
  }

  /** A default-codec instance is replaced by its `{$class, $props}` of its own fields. */
  lemma StringifyInstance(codecs: Codecs, v: Value, fuel: nat)
    requires NoBuiltinCodecs(codecs) && IsDefaultInstance(codecs, v) && fuel > 0
    ensures Stringify(codecs, v, fuel) == Ok(Some(TaggedJson(v.ctor, PlainObject(v.own))))
  {
    assert IsTagged(codecs, v);
    assert CodecEncode(codecs[v.ctor], v) == Ok(PlainObject(v.own));
    SerializeWrapper(codecs, v.ctor, PlainObject(v.own), fuel - 1);
  }

  /** The reviver rebuilds every registered instance where it stands, at any depth. */
  lemma {:induction false} ReviveFramed(codecs: Codecs, v: Value)
    requires Framable(codecs, v)
    ensures Revive(codecs, FramedJson(codecs, v)) == Ok(v)
    decreases v
  {
    match v
    case Arr(items) =>
      var js := FramedJson(codecs, v).items;
      forall i | 0 <= i < |js|
        ensures Revive(codecs, js[i]) == Ok(items[i])
      {
        ReviveFramed(codecs, items[i]);
      }
      ReviveArray(codecs, js, items);
      assert !IsRevived(codecs, v);
    case Obj(ctor, own, _, _) =>
      if ctor == "Object" {
        var js := FramedJson(codecs, v).props;
        forall k | k in js
          ensures Revive(codecs, js[k]) == Ok(own[k]) && own[k] != Undefined
        {
          ReviveFramed(codecs, own[k]);
        }
        ReviveObject(codecs, js, own);
        assert !IsRevived(codecs, v);
      } else {
        var c := codecs[ctor].target;
        DecodeInstance(codecs, c, own);
        assert c.init + own == own;
      }
    case Null | Bool(_) | Num(_) | Str(_) =>
      RevivePlain(codecs, v);
  }

  /**
   * A message with registered instances anywhere inside it, in its params
   * array or under a key of a plain object, survives the framer unchanged.
   */
  lemma FramedRoundTrip(codecs: Codecs, v: Value, fuel: nat)
    requires NoBuiltinCodecs(codecs) && Framable(codecs, v) && fuel > 0
    ensures Encode(codecs, v, fuel) == Ok(FramedJson(codecs, v))
    ensures Decode(codecs, FramedJson(codecs, v)) == Ok(v)
  {
    StringifyFramed(codecs, v, fuel);
    ReviveFramed(codecs, v);
  }

  /** The params `[instance, ...data]` of a request survive the framer, the instance tagged in place. */
  lemma InstanceInArrayRoundTrip(codecs: Codecs, c: Constructor, own: map<string, Value>, post: seq<Value>, fuel: nat)
    requires NoBuiltinCodecs(codecs) && c.name in codecs && codecs[c.name] == DefaultCodec(c)
    requires c.name != "" && fuel > 0 && PlainData(PlainObject(own)) && PlainData(Arr(post))
    requires c.init.Keys <= own.Keys
    ensures Encode(codecs, Arr([Obj(c.name, own, c.proto, {})] + post), fuel)
      == Ok(JArr([TaggedJson(c.name, PlainObject(own))] + ToJson(Arr(post)).items))
    ensures Decode(codecs, JArr([TaggedJson(c.name, PlainObject(own))] + ToJson(Arr(post)).items))
      == Ok(Arr([Obj(c.name, own, c.proto, {})] + post))
  {
    var items := [Obj(c.name, own, c.proto, {})] + post;
    forall i | 0 <= i < |items|
      ensures Framable(codecs, items[i])
      ensures i > 0 ==> FramedJson(codecs, items[i]) == ToJson(post[i - 1])
    {
      if i > 0 {
        PlainIsFramable(codecs, post[i - 1]);
      }
    }
    assert FramedJson(codecs, Arr(items)) == JArr([TaggedJson(c.name, PlainObject(own))] + ToJson(Arr(post)).items);
    FramedRoundTrip(codecs, Arr(items), fuel);
  }
}
