/**
 * The shared serializer dispatch: `toJSON(type, value)` and
 * `fromJSON(type, value)` are priority-ordered decision procedures over the
 * field type and the value. Each is modelled as a function choosing the rule
 * that answers, and a function applying it through the host callbacks.
 */
module Serializer {
  import opened Wrappers
  import opened Js
  import opened Utils

  /** The branch of `toJSON` that answers. */
  datatype ToRule =
    | EnumName          // `type[value]` for an enumeration type
    | PassPrimitive     // strings, numbers and booleans unchanged
    | NullValue         // `'toJSON' in value` on null or undefined throws
    | Invoke(capability: string)   // the first capability method the value answers to
    | RawValue          // no capability: the value itself

  /** The capability methods `toJSON` probes, in order. */
  const ToCapabilities: seq<string> := ["toJSON", "toString", "toNumber", "toBoolean"]

  /** The first of `names` the value answers to: an independent, list-driven reading of the probe chain. */
  function FirstCapability(v: Value, names: seq<string>): (r: Option<string>)
    ensures r.Some? ==> r.value in names && Has(v, r.value)
    ensures r.None? ==> forall n :: n in names ==> !Has(v, n)
  {
    if names == [] then None
    else if Has(v, names[0]) then Some(names[0])
    else FirstCapability(v, names[1..])
  }

  /** The rule `toJSON` applies. */
  function ToJSONRule(t: TypeDesc, v: Value): (r: ToRule)
    ensures r == EnumName <==> IsEnumType(t)
    ensures r == PassPrimitive ==> IsPrimitive(v)
    ensures r.Invoke? ==> r.capability in ToCapabilities && Has(v, r.capability) && !IsNullish(v)
    ensures r == NullValue ==> IsNullish(v)
  {
    if IsEnumType(t) then EnumName
    else if IsPrimitive(v) then PassPrimitive
    else if IsNullish(v) then NullValue
    else if Has(v, "toJSON") then Invoke("toJSON")
    else if Has(v, "toString") then Invoke("toString")
    else if Has(v, "toNumber") then Invoke("toNumber")
    else if Has(v, "toBoolean") then Invoke("toBoolean")
    else RawValue
  }

  /** `Serializer.toJSON(type, value)`. */
  function ToJSON(t: TypeDesc, v: Value, host: Host): (r: Result<Value>)
    ensures r.Err? <==> ToJSONRule(t, v) == NullValue
    ensures r.Err? ==> IsNullish(v)
  {
    match ToJSONRule(t, v)
    case EnumName => Ok(EnumLookup(t.members, v))
    case PassPrimitive => Ok(v)
    case NullValue => Err(TypeError("Cannot use 'in' operator to search for 'toJSON'"))
    case Invoke(m) => Ok(host.invoke(v, m))
    case RawValue => Ok(v)
  }

  /** An enumeration type answers first, whatever capabilities the value has: `type[value]`. */
  lemma ToJSONEnumFirst(t: TypeDesc, v: Value, host: Host)
    requires IsEnumType(t)
    ensures ToJSON(t, v, host) == Ok(EnumLookup(t.members, v))
  {
  }

  /** Strings, numbers and booleans pass through unchanged for any non-enumeration type. */
  lemma ToJSONPrimitive(t: TypeDesc, v: Value, host: Host)
    requires !IsEnumType(t) && IsPrimitive(v)
    ensures ToJSON(t, v, host) == Ok(v)
  {
  }

  /**
   * Any other non-null value is converted by the first capability it
   * answers to among toJSON, toString, toNumber, toBoolean, else returned
   * as it is.
   */
  lemma ToJSONFirstCapability(t: TypeDesc, v: Value, host: Host)
    requires !IsEnumType(t) && !IsPrimitive(v) && !IsNullish(v)
    ensures ToJSON(t, v, host) ==
      match FirstCapability(v, ToCapabilities)
      case Some(m) => Ok(host.invoke(v, m))
      case None => Ok(v)
  {
    var c := ToCapabilities;
    assert c[1..] == ["toString", "toNumber", "toBoolean"] && c[1..][1..] == ["toNumber", "toBoolean"];
    assert c[1..][1..][1..] == ["toBoolean"] && c[1..][1..][1..][1..] == [];
    if Has(v, "toJSON") {
      assert FirstCapability(v, c) == Some("toJSON");
    } else if Has(v, "toString") {
      assert FirstCapability(v, c) == FirstCapability(v, c[1..]) == Some("toString");
    } else if Has(v, "toNumber") {
      assert FirstCapability(v, c[1..]) == FirstCapability(v, c[1..][1..]) == Some("toNumber");
    } else if Has(v, "toBoolean") {
      assert FirstCapability(v, c[1..][1..]) == FirstCapability(v, c[1..][1..][1..]) == Some("toBoolean");
    } else {
      assert FirstCapability(v, c[1..][1..][1..]) == FirstCapability(v, []) == None;
    }
  }

  /** With a non-enumeration type, null and undefined make `toJSON` throw. */
  lemma ToJSONNullThrows(t: TypeDesc, v: Value, host: Host)
    requires !IsEnumType(t) && IsNullish(v)
    ensures ToJSON(t, v, host).Err?
  {
  }

  /** The branch of `fromJSON` that answers. */
  datatype FromRule =
    | StaticFromJSON    // `type.fromJSON(value)`
    | StaticFrom(capability: string)   // `fromString`, `fromNumber` or `fromBoolean`, by the value's kind
    | Construct         // `new type(value)`
    | EnumValue         // `type[value]`
    | PassThrough       // the value itself

  /** The rule `fromJSON` applies: a type's own `fromJSON` first, then kind-matched statics, then construction, then enum lookup. */
  function FromJSONRule(t: TypeDesc, v: Value): (r: FromRule)
    ensures HasStatic(t, "fromJSON") <==> r == StaticFromJSON
    ensures r == StaticFrom("fromString") ==> v.Str? && HasStatic(t, "fromString")
    ensures r == StaticFrom("fromNumber") ==> v.Num? && HasStatic(t, "fromNumber")
    ensures r == StaticFrom("fromBoolean") ==> v.Bool? && HasStatic(t, "fromBoolean")
    ensures r.StaticFrom? ==> r.capability in {"fromString", "fromNumber", "fromBoolean"}
    ensures r == Construct ==> t.Ctor?
    ensures r == EnumValue ==> IsEnumType(t)
  {
    if HasStatic(t, "fromJSON") then StaticFromJSON
    else if v.Str? && HasStatic(t, "fromString") then StaticFrom("fromString")
    else if v.Num? && HasStatic(t, "fromNumber") then StaticFrom("fromNumber")
    else if v.Bool? && HasStatic(t, "fromBoolean") then StaticFrom("fromBoolean")
    else if IsFunctionType(t) && t.Ctor? then Construct
    else if IsEnumType(t) then EnumValue
    else PassThrough
  }

  /** `Serializer.fromJSON(type, value)`. */
  function FromJSON(t: TypeDesc, v: Value, host: Host): Value {
    match FromJSONRule(t, v)
    case StaticFromJSON => host.callStatic(t, "fromJSON", v)
    case StaticFrom(m) => host.callStatic(t, m, v)
    case Construct => host.construct(t, v)
    case EnumValue => EnumLookup(t.members, v)
    case PassThrough => v
  }

  /** A type's own `fromJSON` takes precedence over every other rule. */
  lemma FromJSONStaticFirst(t: TypeDesc, v: Value, host: Host)
    requires HasStatic(t, "fromJSON")
    ensures FromJSON(t, v, host) == host.callStatic(t, "fromJSON", v)
  {
  }

  /** A kind-specific static is used only for a value of its kind: a number never reaches `fromString`. */
  lemma FromJSONKindGated(t: TypeDesc, v: Value)
    requires !v.Str?
    ensures FromJSONRule(t, v) != StaticFrom("fromString")
  {
  }

  /** String, Number and Boolean are never constructed: the value comes back unchanged. */
  lemma FromJSONBuiltinsPass(t: TypeDesc, v: Value, host: Host)
    requires t == StringType || t == NumberType || t == BooleanType
    ensures FromJSON(t, v, host) == v
  {
  }

  /** Any other constructor without capability statics builds `new type(value)`. */
  lemma FromJSONConstructs(t: TypeDesc, v: Value, host: Host)
    requires t.Ctor? && forall m :: m in {"fromJSON", "fromString", "fromNumber", "fromBoolean"} ==> !HasStatic(t, m)
    ensures FromJSON(t, v, host) == host.construct(t, v)
  {
  }

  /** Built-in scalar types round-trip scalar values unchanged. */
  lemma PrimitiveRoundTrip(t: TypeDesc, v: Value, host: Host)
    requires t == StringType || t == NumberType || t == BooleanType
    requires IsPrimitive(v)
    ensures ToJSON(t, v, host) == Ok(v)
    ensures FromJSON(t, ToJSON(t, v, host).value, host) == v
  {
  }

  /**
   * A numeric enumeration member survives the trip: `toJSON` gives its name
   * and `fromJSON` maps the name back to the same number, provided the
   * enumeration object has no member named after a `from*` capability.
   */
  lemma EnumRoundTrip(members: map<string, Value>, n: int, host: Host)
    requires IsEnumObject(true, members)
    requires IntToString(n) in members && members[IntToString(n)].Str?
    requires members[members[IntToString(n)].s].Num?
    requires "fromJSON" !in members && "fromString" !in members
    ensures var t := ObjectType(true, members);
      ToJSON(t, Num(n), host).Ok? && FromJSON(t, ToJSON(t, Num(n), host).value, host) == Num(n)
  {
    EnumNumberRoundTrip(members, n);
  }

  /** The UserStatus enumeration serialises 1 as "ACTIVE". */
  lemma UserStatusToJSON(host: Host)
    ensures ToJSON(ObjectType(true, UserStatus()), Num(1), host) == Ok(Str("ACTIVE"))
  {
    NumericEnumIsEnum();
    assert PropertyKey(Num(1)) == Some("1") by {
      assert IntToString(1) == NatToString(1) == "1";
    }
  }
}
