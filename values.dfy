/**
 * JavaScript values as the runtime's TypeScript code sees them, with the
 * few pieces of JavaScript semantics the core relies on: truthiness,
 * `typeof`, property reads, `constructor.name` and template-literal
 * string conversion.
 *
 * Numbers are integers: the core never computes with fractions, NaN or
 * infinities. Objects carry the name of their constructor, their own
 * properties, and the properties they inherit from their class prototype
 * (`inherited`), and which of their own properties are not enumerable
 * (`hidden`); the built-in members of `Object.prototype` are not modelled.
 * A function value `Fn` is also a class constructor: `new F()` builds an
 * object with constructor name `name`, own properties `init` and prototype
 * properties `proto`.
 */
module JsValues {
  import opened Wrappers

  datatype Value =
    | Undefined
    | Null
    | Bool(b: bool)
    | Num(n: int)
    | Str(s: string)
    | Arr(items: seq<Value>)
    | Obj(ctor: string, own: map<string, Value>, inherited: map<string, Value>, hidden: set<string>)
    | Fn(name: string, init: map<string, Value>, proto: map<string, Value>)

  /** `null` or `undefined`: the values whose property reads throw. */
  predicate IsNullish(v: Value) {
    v.Undefined? || v.Null?
  }

  /** JavaScript truthiness (`!!v`). */
  predicate Truthy(v: Value) {
    match v
    case Undefined => false
    case Null => false
    case Bool(b) => b
    case Num(n) => n != 0
    case Str(s) => s != ""
    case _ => true
  }

  /** The result of `typeof v`. */
  function TypeOf(v: Value): string {
    match v
    case Undefined => "undefined"
    case Null => "object"
    case Bool(_) => "boolean"
    case Num(_) => "number"
    case Str(_) => "string"
    case Arr(_) => "object"
    case Obj(_, _, _, _) => "object"
    case Fn(_, _, _) => "function"
  }

  /** A plain object literal `{...}`. */
  function PlainObject(props: map<string, Value>): Value {
    Obj("Object", props, map[], {})
  }

  /** The object `new F()` builds for a constructor `F`. */
  function Construct(f: Value): (o: Value)
    requires f.Fn?
    ensures o.Obj? && o.ctor == f.name && o.own == f.init && o.inherited == f.proto && o.hidden == {}
  {
    Obj(f.name, f.init, f.proto, {})
  }

  /**
   * Property read `v[k]` for the named keys the core reads: an object's own
   * or inherited property, a function's `name`, and the `length` of an
   * array or a string. Index reads such as `items["0"]` are not modelled
   * and give `undefined`. Reading a property of `null` or `undefined`
   * throws a TypeError, so callers must exclude those first.
   */
  function Get(v: Value, k: string): (r: Value)
    requires !IsNullish(v)
    ensures v.Obj? && k in v.own ==> r == v.own[k]
    ensures v.Obj? && k !in v.own && k !in v.inherited ==> r == Undefined
    ensures v.Bool? || v.Num? ==> r == Undefined
  {
    match v
    case Obj(_, own, inherited, _) =>
      if k in own then own[k] else if k in inherited then inherited[k] else Undefined
    case Fn(name, _, _) => if k == "name" then Str(name) else Undefined
    case Arr(items) => if k == "length" then Num(|items|) else Undefined
    case Str(s) => if k == "length" then Num(|s|) else Undefined
    case _ => Undefined
  }

  /** `k in v` for an object `v` (own or inherited). */
  predicate HasProperty(v: Value, k: string)
    requires v.Obj?
  {
    k in v.own || k in v.inherited
  }

  /** `v.constructor.name`. */
  function CtorName(v: Value): string
    requires !IsNullish(v)
  {
    match v
    case Bool(_) => "Boolean"
    case Num(_) => "Number"
    case Str(_) => "String"
    case Arr(_) => "Array"
    case Obj(ctor, _, _, _) => ctor
    case Fn(_, _, _) => "Function"
  }

  /**
   * A fresh `new Error(message)`: own `message` and `stack`, both not
   * enumerable, and inherited `name`.
   */
  function ErrorObject(kind: string, message: string): (e: Value)
    ensures e.Obj? && Truthy(Get(e, "stack"))
    ensures Get(e, "message") == Str(message) && Get(e, "name") == Str(kind)
    ensures e.own.Keys == {"message", "stack"} && EnumerableOwn(e) == map[]
  {
    Obj(kind, map["message" := Str(message), "stack" := Str(kind + ": " + message)],
        map["name" := Str(kind)], {"message", "stack"})
  }

  /** The own properties `Object.keys`, `for...in`, `Object.assign` and `JSON.stringify` visit. */
  function EnumerableOwn(v: Value): (m: map<string, Value>)
    requires v.Obj?
    ensures m.Keys == v.own.Keys - v.hidden
    ensures forall k :: k in m ==> m[k] == v.own[k]
    ensures v.hidden == {} ==> m == v.own
  {
    map k | k in v.own && k !in v.hidden :: v.own[k]
  }

  // ---------------------------------------------------------------------
  // Decimal numerals: JavaScript object keys are strings, so a number used
  // as a key is stored under its decimal numeral.
  // ---------------------------------------------------------------------

  predicate IsDigit(c: char) {
    '0' <= c <= '9'
  }

  function DigitChar(d: nat): (c: char)
    requires d < 10
    ensures IsDigit(c) && c as int - '0' as int == d
  {
    ('0' as int + d) as char
  }

  function DigitValue(c: char): (d: nat)
    requires IsDigit(c)
    ensures d < 10
  {
    c as int - '0' as int
  }

  /** The canonical decimal numeral of `n` (what `String(n)` returns). */
  function NatToDecimal(n: nat): (s: string)
    ensures |s| > 0
    decreases n
  {
    if n < 10 then [DigitChar(n)] else NatToDecimal(n / 10) + [DigitChar(n % 10)]
  }

  function IntToDecimal(n: int): string {
    if n < 0 then "-" + NatToDecimal(-n) else NatToDecimal(n)
  }

  predicate AllDigits(s: string) {
    forall i :: 0 <= i < |s| ==> IsDigit(s[i])
  }

  function DigitsValue(s: string): nat
    requires AllDigits(s)
  {
    if s == [] then 0 else DigitsValue(s[..|s| - 1]) * 10 + DigitValue(s[|s| - 1])
  }

  /** A canonical numeral: non-empty digits, no leading zero except "0" itself. */
  predicate IsCanonicalNumeral(s: string) {
    |s| > 0 && AllDigits(s) && (|s| > 1 ==> s[0] != '0')
  }

  /** The number whose canonical numeral is `s`, if any. */
  function ParseCanonicalNat(s: string): Option<nat> {
    if IsCanonicalNumeral(s) then Some(DigitsValue(s)) else None
  }

  lemma {:induction false} DecimalIsCanonical(n: nat)
    ensures IsCanonicalNumeral(NatToDecimal(n))
    ensures DigitsValue(NatToDecimal(n)) == n
    ensures NatToDecimal(n)[0] == '0' <==> n == 0
    decreases n
  {
    if n >= 10 {
      DecimalIsCanonical(n / 10);
      var p := NatToDecimal(n / 10);
      var s := NatToDecimal(n);
      assert s == p + [DigitChar(n % 10)];
      assert s[..|s| - 1] == p;
    }
  }

  lemma {:induction false} ZeroValueAllZeros(s: string)
    requires AllDigits(s) && DigitsValue(s) == 0
    ensures forall i :: 0 <= i < |s| ==> s[i] == '0'
  {
    if s != [] {
      var p := s[..|s| - 1];
      assert AllDigits(p);
      ZeroValueAllZeros(p);
      forall i | 0 <= i < |s| ensures s[i] == '0' {
        if i < |s| - 1 { assert s[i] == p[i]; }
      }
    }
  }

  lemma {:induction false} CanonicalIsDecimal(s: string)
    requires IsCanonicalNumeral(s)
    ensures NatToDecimal(DigitsValue(s)) == s
    decreases |s|
  {
    if |s| > 1 {
      var p := s[..|s| - 1];
      assert p[0] == s[0];
      assert IsCanonicalNumeral(p);
      if DigitsValue(p) == 0 {
        ZeroValueAllZeros(p);
        assert false;
      }
      CanonicalIsDecimal(p);
      var v := DigitsValue(s);
      assert v / 10 == DigitsValue(p) && v % 10 == DigitValue(s[|s| - 1]);
      assert s == p + [s[|s| - 1]];
    }
  }

  /** A string key names the number `n` exactly when it is `n`'s canonical numeral. */
  lemma ParseCanonicalNatIff(s: string, n: nat)
    ensures ParseCanonicalNat(s) == Some(n) <==> s == NatToDecimal(n)
  {
    DecimalIsCanonical(n);
    if ParseCanonicalNat(s) == Some(n) {
      CanonicalIsDecimal(s);
    }
  }

  // ---------------------------------------------------------------------
  // Template-literal string conversion (`${v}`).
  // ---------------------------------------------------------------------

  /**
   * `String(v)`. Plain objects print as "[object Object]" and functions by
   * their name; class-specific `toString` methods are not modelled.
   */
  function ToStr(v: Value): string {
    match v
    case Undefined => "undefined"
    case Null => "null"
    case Bool(b) => if b then "true" else "false"
    case Num(n) => IntToDecimal(n)
    case Str(s) => s
    case Arr(items) => JoinItems(items)
    case Obj(_, _, _, _) => "[object Object]"
    case Fn(name, _, _) => "function " + name
  }

  /** `items.join(",")`, where `null` and `undefined` print as empty. */
  function JoinItems(items: seq<Value>): string
    decreases items
  {
    if items == [] then ""
    else
      var head := if IsNullish(items[0]) then "" else ToStr(items[0]);
      if |items| == 1 then head else head + "," + JoinItems(items[1..])
  }
}
