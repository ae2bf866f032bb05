/**
 * The slice of the JavaScript value universe the runtime core touches:
 * values, the type descriptors a field's `type()` resolver returns, and the
 * host callbacks (default producers, capability methods, constructors) whose
 * code is not part of the core and therefore stays opaque.
 */
module Js {
  import opened Wrappers

  /**
   * A JavaScript value. Numbers are integers here (floating point is not
   * modelled). `Fn` is a function object, for instance a default producer;
   * `Obj` is any other object: `members` are the names its prototype chain
   * answers to `name in value` (its capabilities), `plain` says whether its
   * prototype is the plain-object prototype, `props` are its own properties.
   */
  datatype Value =
    | Undefined
    | Null
    | Str(s: string)
    | Num(n: int)
    | Bool(b: bool)
    | Arr(items: seq<Value>)
    | Fn(fid: nat)
    | Obj(oid: nat, members: set<string>, plain: bool, props: map<string, Value>)

  /** `v == null` with JavaScript's loose equality: true of null and undefined. */
  predicate IsNullish(v: Value) {
    v.Undefined? || v.Null?
  }

  /** `typeof v` is 'string', 'number' or 'boolean'. */
  predicate IsPrimitive(v: Value) {
    v.Str? || v.Num? || v.Bool?
  }

  /** Names every object inherits from the plain-object prototype. */
  const ObjectPrototypeNames: set<string> :=
    {"constructor", "hasOwnProperty", "isPrototypeOf", "propertyIsEnumerable",
     "toLocaleString", "toString", "valueOf"}

  /** `name in v` for a value that is an object (arrays and functions included). */
  predicate Has(v: Value, name: string) {
    match v
    case Arr(_) => name in ObjectPrototypeNames + {"length", "map", "join", "push"}
    case Fn(_) => name in ObjectPrototypeNames + {"length", "name", "call", "apply", "bind"}
    case Obj(_, members, _, props) => name in members || name in props
    case _ => false
  }

  /** Own property lookup `obj[key]` on a keyed record; a missing key reads as undefined. */
  function Get(obj: map<string, Value>, key: string): Value {
    if key in obj then obj[key] else Undefined
  }

  /** The decimal digit `d` as a character. */
  function DigitChar(d: nat): char
    requires d < 10
  {
    (('0' as int) + d) as char
  }

  /** Decimal rendering of a natural number, as `String(n)` gives it. */
  function NatToString(n: nat): (s: string)
    ensures (n < 10) == (|s| == 1)
    ensures |s| >= 1 && forall i :: 0 <= i < |s| ==> '0' <= s[i] <= '9'
  {
    if n < 10 then [DigitChar(n)] else NatToString(n / 10) + [DigitChar(n % 10)]
  }

  /** Decimal rendering of an integer, with a leading '-' when negative. */
  function IntToString(n: int): (s: string)
    ensures |s| >= 1
    ensures (n < 0) == (s[0] == '-')
  {
    if n < 0 then "-" + NatToString(-n) else NatToString(n)
  }

  /** Distinct naturals render differently. */
  lemma {:induction false} NatToStringInjective(a: nat, b: nat)
    requires NatToString(a) == NatToString(b)
    ensures a == b
  {
    var s := NatToString(a);
    if a < 10 {
      assert s == [DigitChar(a)] == [DigitChar(b)];
    } else {
      assert b >= 10;
      assert NatToString(a) == NatToString(a / 10) + [DigitChar(a % 10)];
      assert NatToString(b) == NatToString(b / 10) + [DigitChar(b % 10)];
      assert s[|s| - 1] == DigitChar(a % 10) == DigitChar(b % 10);
      assert NatToString(a / 10) == s[..|s| - 1] == NatToString(b / 10);
      NatToStringInjective(a / 10, b / 10);
    }
  }

  /** Distinct integers render differently, so a number can be recovered from its key. */
  lemma IntToStringInjective(a: int, b: int)
    requires IntToString(a) == IntToString(b)
    ensures a == b
  {
    if a < 0 {
      assert NatToString(-a) == IntToString(a)[1..] == IntToString(b)[1..] == NatToString(-b);
      NatToStringInjective(-a, -b);
    } else {
      NatToStringInjective(a, b);
    }
  }

  /**
   * The property key a value becomes when used as `obj[v]`. Objects, arrays
   * and functions render through their own `toString`, which is not modelled:
   * they yield no key, and a lookup with them reads as undefined.
   */
  function PropertyKey(v: Value): Option<string> {
    match v
    case Undefined => Some("undefined")
    case Null => Some("null")
    case Str(s) => Some(s)
    case Num(n) => Some(IntToString(n))
    case Bool(b) => Some(if b then "true" else "false")
    case _ => None
  }

  /**
   * `v == s` with JavaScript's loose equality, for a string `s`. A number or
   * a boolean is compared with the canonical decimal text of its numeric
   * value; objects compare through `toString`, which is not modelled.
   */
  predicate LooseEqualsString(v: Value, s: string) {
    match v
    case Str(t) => t == s
    case Num(n) => s == IntToString(n)
    case Bool(b) => s == (if b then "1" else "0")
    case _ => false
  }

  /**
   * How a schema-backed constructor is tied to its schema: whether its
   * prototype inherits from the schema's prototype, and whether the schema
   * carries a property table.
   */
  datatype SchemaLink = SchemaLink(prototypeInherits: bool, decorated: bool)

  /**
   * What a field's `type()` resolver returns. The built-in String, Number and
   * Boolean constructors; any other constructor with the static names it
   * answers to and, when it has a static `Properties`, how it is tied to that
   * schema; or a non-function object such as a TypeScript enum.
   */
  datatype TypeDesc =
    | StringType
    | NumberType
    | BooleanType
    | Ctor(cid: nat, statics: set<string>, schema: Option<SchemaLink>)
    | ObjectType(plain: bool, members: map<string, Value>)

  /** A resolved field type: a scalar, or a one-element list `[T]` for a repeated field. */
  datatype FieldType = Single(elem: TypeDesc) | ListOf(elem: TypeDesc)

  /** `name in type`, for the capability names the serializer probes. */
  predicate HasStatic(t: TypeDesc, name: string) {
    match t
    case Ctor(_, statics, _) => name in statics
    case ObjectType(_, members) => name in members
    case _ => false
  }

  /** `typeof type === 'function'`. */
  predicate IsFunctionType(t: TypeDesc) {
    !t.ObjectType?
  }

  /**
   * `isFactory(type)`: a function with a static `Properties` schema, whose
   * prototype inherits from that schema's prototype, and whose schema is
   * decorated with a property table.
   */
  predicate IsFactory(t: TypeDesc) {
    t.Ctor? && t.schema.Some? && t.schema.value.prototypeInherits && t.schema.value.decorated
  }

  /**
   * Code outside the core that the core calls: a default producer `Fn(fid)`
   * evaluated against the record it closes over; `value.name()` for a
   * capability method of a value; `type.name(value)` for a static capability;
   * and `new type(value)`.
   */
  datatype Host = Host(
    produce: (nat, map<string, Value>) -> Value,
    invoke: (Value, string) -> Value,
    callStatic: (TypeDesc, string, Value) -> Value,
    construct: (TypeDesc, Value) -> Value)
}
