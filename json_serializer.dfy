/**
 * The JSON serializer every factory-built class carries, and the byte and
 * text codecs built on it: `encodeType`/`decodeType`, the instance's
 * `encode`/`stringify`, and the class's `encode`/`decode`/`stringify`/
 * `parse`/`fromJSONString`.
 *
 * Bytes are represented by the JSON value whose text they hold; a text
 * rendering by the alphabet it is written in and the bytes it renders.
 */
module JSONSerializer {
  import opened Wrappers
  import opened Js
  import opened Property
  import S = Serializer
  import F = Factory

  /** A buffer: the UTF-8 text of a JSON value, no bytes at all, or bytes that are not JSON text. */
  datatype Bytes = JsonText(json: Value) | Empty | Garbled

  /** `JSON.parse(Buffer.from(bytes).toString())`. */
  function ParseBytes(b: Bytes): (r: Result<Value>)
    ensures r.Ok? <==> b.JsonText?
    ensures r.Ok? ==> r.value == b.json
  {
    match b
    case JsonText(json) => Ok(json)
    case Empty => Err(SyntaxError("Unexpected end of JSON input"))
    case Garbled => Err(SyntaxError("Unexpected token"))
  }

  /** `Buffer.from(JSON.stringify(v))`: undefined and functions stringify to undefined, which `Buffer.from` rejects. */
  function StringifyBytes(v: Value): (r: Result<Bytes>)
    ensures r.Ok? <==> !v.Undefined? && !v.Fn?
    ensures r.Ok? ==> ParseBytes(r.value) == Ok(v)
  {
    if v.Undefined? || v.Fn? then Err(TypeError("The first argument must be of type string")) else Ok(JsonText(v))
  }

  /**
   * `encodeType(type, value)`: a value of a factory-built type is written as
   * its ordinal tuple `value.toJSONValues()`, read through the type's table;
   * anything else as its own JSON.
   */
  function EncodeType(t: TypeDesc, value: Value, table: Table, host: Host): (r: Result<Bytes>)
    ensures IsFactory(t) && value.Obj? && Has(value, "toJSONValues") ==>
      (r.Ok? <==> F.JSONValuesOf(table.entries, value.props, host).Ok?) &&
      (r.Ok? ==> r.value == JsonText(Arr(F.JSONValuesOf(table.entries, value.props, host).value)))
    ensures IsFactory(t) && !(value.Obj? && Has(value, "toJSONValues")) ==> r.Err?
    ensures !IsFactory(t) ==> r == StringifyBytes(value)
  {
    if IsFactory(t) then
      if value.Obj? && Has(value, "toJSONValues") then
        var values :- F.JSONValuesOf(table.entries, value.props, host);
        StringifyBytes(Arr(values))
      else Err(TypeError("value.toJSONValues is not a function"))
    else StringifyBytes(value)
  }

  /** `decodeType(type, bytes)`: parse, then the shared `fromJSON`. */
  function DecodeType(t: TypeDesc, bytes: Bytes, host: Host): (r: Result<Value>)
    ensures r.Ok? <==> bytes.JsonText?
    ensures r.Ok? ==> r.value == S.FromJSON(t, bytes.json, host)
  {
    var json :- ParseBytes(bytes);
    Ok(S.FromJSON(t, json, host))
  }

  /**
   * For a type that is not factory-built, decoding what was encoded is the
   * shared `fromJSON` applied to the value itself.
   */
  lemma PlainValueRoundTrip(t: TypeDesc, v: Value, table: Table, host: Host)
    requires !IsFactory(t) && !v.Undefined? && !v.Fn?
    ensures EncodeType(t, v, table, host).Ok?
    ensures DecodeType(t, EncodeType(t, v, table, host).value, host) == Ok(S.FromJSON(t, v, host))
  {
  }

  /**
   * For a factory-built type, whose own `fromJSON` static is always present,
   * decoding what was encoded hands the ordinal tuple to that static.
   */
  lemma FactoryValueRoundTrip(t: TypeDesc, v: Value, table: Table, host: Host)
    requires IsFactory(t) && HasStatic(t, "fromJSON")
    requires v.Obj? && Has(v, "toJSONValues")
    requires F.JSONValuesOf(table.entries, v.props, host).Ok?
    ensures EncodeType(t, v, table, host).Ok?
    ensures DecodeType(t, EncodeType(t, v, table, host).value, host) ==
      Ok(host.callStatic(t, "fromJSON", Arr(F.JSONValuesOf(table.entries, v.props, host).value)))
  {
  }

  /**
   * The host runs the `fromJSON` static of the class `c` as the one every
   * built class copies from the shared base (see `Factory.SharedBaseWins`):
   * on `json`, whenever the class's table reads it without throwing, it
   * answers the instance `Factory.FromJSON` builds from the class's blank.
   */
  predicate RunsSharedFromJSON(c: TypeDesc, table: Table, blank: F.Record, host: Host, json: Value, oid: nat) {
    F.FromJSON(table, blank, json, host).Ok? ==>
      host.callStatic(c, "fromJSON", json) == Instance(oid, F.FromJSON(table, blank, json, host).value)
  }

  /**
   * For a built class whose `fromJSON` is the shared one, decoding what was
   * encoded rebuilds, by its ordinal, every field whose value round-trips
   * (`Factory.FieldRoundTrips`: scalars, enumeration members, lists of either).
   */
  lemma FactoryDecodeRebuilds(t: TypeDesc, v: Value, table: Table, blank: F.Record, host: Host, oid: nat, i: nat)
    requires IsFactory(t) && HasStatic(t, "fromJSON")
    requires ValidTable(table) && i < |table.entries|
    requires v.Obj? && Has(v, "toJSONValues")
    requires F.JSONValuesOf(table.entries, v.props, host).Ok?
    requires F.FieldRoundTrips(table.entries[i], v.props, host)
    requires RunsSharedFromJSON(t, table, blank, host, Arr(F.JSONValuesOf(table.entries, v.props, host).value), oid)
    ensures EncodeType(t, v, table, host).Ok?
    ensures var d := DecodeType(t, EncodeType(t, v, table, host).value, host);
      d.Ok? && d.value.Obj? && Get(d.value.props, table.entries[i].key) == Get(v.props, table.entries[i].key)
  {
    FactoryValueRoundTrip(t, v, table, host);
    F.JSONValuesRoundTrip(table, blank, v.props, host, i);
  }

  /** The prototype members of a factory-built instance. */
  const InstanceMembers: set<string> :=
    ObjectPrototypeNames + {"toPlainObject", "toValues", "toJSON", "toJSONValues", "encode", "stringify"}

  /** An instance of a factory-built class with the given own fields. */
  function Instance(oid: nat, fields: F.Record): Value {
    Obj(oid, InstanceMembers, false, fields)
  }

  /** `instance.encode()`: its class's serializer on its class. */
  function Encode(c: TypeDesc, table: Table, oid: nat, fields: F.Record, host: Host): (r: Result<Bytes>)
    requires IsFactory(c)
    ensures r.Ok? <==> F.JSONValuesOf(table.entries, fields, host).Ok?
    ensures r.Ok? ==> r.value == JsonText(Arr(F.JSONValuesOf(table.entries, fields, host).value))
  {
    EncodeType(c, Instance(oid, fields), table, host)
  }

  /** A text alphabet `Buffer` renders bytes in. */
  datatype Encoding = Base64 | Hex

  /** The text `bytes.toString(alphabet)`. */
  datatype Text = Text(alphabet: Encoding, bytes: Bytes)

  /**
   * `Buffer.from(text, encoding)`. Read in its own alphabet, a text gives its
   * bytes back. The base64 rendering of a JSON array begins with `W` (the top
   * six bits of `[`), where the hex decoder stops, so read as hex it gives no
   * bytes. Other mismatches give bytes that are not JSON text.
   */
  function FromText(text: Text, encoding: Encoding): (r: Bytes)
    ensures text.alphabet == encoding ==> r == text.bytes
  {
    if text.alphabet == encoding then text.bytes
    else if text.alphabet == Base64 && text.bytes.JsonText? && text.bytes.json.Arr? then Empty
    else Garbled
  }

  /** `instance.stringify(encoding)`: the encoding argument is not used; the text is always base64. */
  function Stringify(c: TypeDesc, table: Table, oid: nat, fields: F.Record, host: Host, encoding: Encoding): (r: Result<Text>)
    requires IsFactory(c)
    ensures r.Ok? <==> F.JSONValuesOf(table.entries, fields, host).Ok?
    ensures r.Ok? ==> r.value.alphabet == Base64
  {
    var bytes :- Encode(c, table, oid, fields, host);
    Ok(Text(Base64, bytes))
  }

  /** `instance.stringify(encoding)` as its signature promises: the text in the requested alphabet. */
  function StringifyIn(c: TypeDesc, table: Table, oid: nat, fields: F.Record, host: Host, encoding: Encoding): (r: Result<Text>)
    requires IsFactory(c)
    ensures r.Ok? <==> F.JSONValuesOf(table.entries, fields, host).Ok?
    ensures r.Ok? ==> r.value.alphabet == encoding
  {
    var bytes :- Encode(c, table, oid, fields, host);
    Ok(Text(encoding, bytes))
  }

  /** `Class.fromJSONString(text)`: `JSON.parse`, then the class's `fromJSON`. */
  function FromJSONString(table: Table, blank: F.Record, text: Bytes, host: Host): (r: Result<F.Record>)
    ensures r.Ok? <==> text.JsonText? && F.JSONForgeOf(table.entries, text.json, host).Ok?
    ensures r.Ok? ==> r.value == F.Construct(table, blank, F.JSONForgeOf(table.entries, text.json, host).value, host)
  {
    var json :- ParseBytes(text);
    F.FromJSON(table, blank, json, host)
  }

  /** `Class.parse(text, encoding)`: the text read in the given alphabet, then `fromJSONString`. */
  function Parse(table: Table, blank: F.Record, text: Text, encoding: Encoding, host: Host): (r: Result<F.Record>)
    ensures text.alphabet == encoding ==> r == FromJSONString(table, blank, text.bytes, host)
    ensures text.alphabet != encoding ==> r.Err?
  {
    FromJSONString(table, blank, FromText(text, encoding), host)
  }

  /**
   * `Class.stringify(forge, encoding)`: a new instance, stringified by the
   * instance's `stringify`, which does not use `encoding`: the text is base64
   * whatever alphabet was asked for.
   */
  function StaticStringify(c: TypeDesc, table: Table, blank: F.Record, forge: F.Record, oid: nat, host: Host, encoding: Encoding): (r: Result<Text>)
    requires IsFactory(c)
    ensures r.Ok? <==> F.JSONValuesOf(table.entries, F.Construct(table, blank, forge, host), host).Ok?
    ensures r.Ok? ==> r.value == Text(Base64, JsonText(Arr(F.JSONValuesOf(table.entries, F.Construct(table, blank, forge, host), host).value)))
  {
    Stringify(c, table, oid, F.Construct(table, blank, forge, host), host, encoding)
  }

  /** `Class.stringify(forge, encoding)` as its signature promises: a new instance, rendered in the requested alphabet. */
  function StaticStringifyIn(c: TypeDesc, table: Table, blank: F.Record, forge: F.Record, oid: nat, host: Host, encoding: Encoding): (r: Result<Text>)
    requires IsFactory(c)
    ensures r.Ok? <==> F.JSONValuesOf(table.entries, F.Construct(table, blank, forge, host), host).Ok?
    ensures r.Ok? ==> r.value == Text(encoding, JsonText(Arr(F.JSONValuesOf(table.entries, F.Construct(table, blank, forge, host), host).value)))
  {
    StringifyIn(c, table, oid, F.Construct(table, blank, forge, host), host, encoding)
  }

  /** `Class.encode(forge)`: a new instance, encoded. */
  function StaticEncode(c: TypeDesc, table: Table, blank: F.Record, forge: F.Record, oid: nat, host: Host): (r: Result<Bytes>)
    requires IsFactory(c)
    ensures r.Ok? <==> F.JSONValuesOf(table.entries, F.Construct(table, blank, forge, host), host).Ok?
    ensures r.Ok? ==> r.value == JsonText(Arr(F.JSONValuesOf(table.entries, F.Construct(table, blank, forge, host), host).value))
  {
    Encode(c, table, oid, F.Construct(table, blank, forge, host), host)
  }

  /** `Class.decode(bytes)`: the class's serializer on the class, which hands the parsed JSON to the class's own `fromJSON`. */
  function StaticDecode(c: TypeDesc, bytes: Bytes, host: Host): (r: Result<Value>)
    requires IsFactory(c) && HasStatic(c, "fromJSON")
    ensures r.Ok? <==> bytes.JsonText?
    ensures r.Ok? ==> r.value == host.callStatic(c, "fromJSON", bytes.json)
  {
    DecodeType(c, bytes, host)
  }

  /**
   * `Class.decode(Class.encode(forge))`, with the shared `fromJSON`, rebuilds
   * every field of the instance `forge` builds whose value round-trips.
   */
  lemma StaticEncodeDecodeRoundTrip(c: TypeDesc, table: Table, blank: F.Record, forge: F.Record, oid: nat, host: Host, newOid: nat, i: nat)
    requires IsFactory(c) && HasStatic(c, "fromJSON")
    requires ValidTable(table) && i < |table.entries|
    requires F.JSONValuesOf(table.entries, F.Construct(table, blank, forge, host), host).Ok?
    requires F.FieldRoundTrips(table.entries[i], F.Construct(table, blank, forge, host), host)
    requires RunsSharedFromJSON(c, table, blank, host, Arr(F.JSONValuesOf(table.entries, F.Construct(table, blank, forge, host), host).value), newOid)
    ensures StaticEncode(c, table, blank, forge, oid, host).Ok?
    ensures var d := StaticDecode(c, StaticEncode(c, table, blank, forge, oid, host).value, host);
      d.Ok? && d.value.Obj? &&
      Get(d.value.props, table.entries[i].key) == Get(F.Construct(table, blank, forge, host), table.entries[i].key)
  {
    F.JSONValuesRoundTrip(table, blank, F.Construct(table, blank, forge, host), host, i);
  }

  /**
   * With the default alphabet, `parse(x.stringify())` reads the ordinal
   * tuple and rebuilds every field of x whose value round-trips.
   */
  lemma StringifyParseRoundTrip(c: TypeDesc, table: Table, blank: F.Record, oid: nat, fields: F.Record, host: Host, i: nat)
    requires IsFactory(c) && ValidTable(table) && i < |table.entries|
    requires F.JSONValuesOf(table.entries, fields, host).Ok?
    requires F.FieldRoundTrips(table.entries[i], fields, host)
    ensures Stringify(c, table, oid, fields, host, Base64).Ok?
    ensures var parsed := Parse(table, blank, Stringify(c, table, oid, fields, host, Base64).value, Base64, host);
      parsed.Ok? && Get(parsed.value, table.entries[i].key) == Get(fields, table.entries[i].key)
  {
    F.JSONValuesRoundTrip(table, blank, fields, host, i);
  }

  /** As written, asking for hex text and parsing it as hex always throws: the text is base64 whatever was asked. */
  lemma HexStringifyParseFails(c: TypeDesc, table: Table, blank: F.Record, oid: nat, fields: F.Record, host: Host)
    requires IsFactory(c)
    requires F.JSONValuesOf(table.entries, fields, host).Ok?
    ensures Stringify(c, table, oid, fields, host, Hex).Ok?
    ensures Parse(table, blank, Stringify(c, table, oid, fields, host, Hex).value, Hex, host) == Err(SyntaxError("Unexpected end of JSON input"))
  {
  }

  /** With the text written in the requested alphabet, `parse` round-trips in either alphabet. */
  lemma StringifyInParseRoundTrip(c: TypeDesc, table: Table, blank: F.Record, oid: nat, fields: F.Record, host: Host, encoding: Encoding, i: nat)
    requires IsFactory(c) && ValidTable(table) && i < |table.entries|
    requires F.JSONValuesOf(table.entries, fields, host).Ok?
    requires F.FieldRoundTrips(table.entries[i], fields, host)
    ensures StringifyIn(c, table, oid, fields, host, encoding).Ok?
    ensures var parsed := Parse(table, blank, StringifyIn(c, table, oid, fields, host, encoding).value, encoding, host);
      parsed.Ok? && Get(parsed.value, table.entries[i].key) == Get(fields, table.entries[i].key)
  {
    F.JSONValuesRoundTrip(table, blank, fields, host, i);
  }

  /** As written, the class's `stringify(forge, 'hex')` read back by `parse(text, 'hex')` throws: the text is base64. */
  lemma StaticHexStringifyParseFails(c: TypeDesc, table: Table, blank: F.Record, forge: F.Record, oid: nat, host: Host)
    requires IsFactory(c)
    requires F.JSONValuesOf(table.entries, F.Construct(table, blank, forge, host), host).Ok?
    ensures StaticStringify(c, table, blank, forge, oid, host, Hex).Ok?
    ensures Parse(table, blank, StaticStringify(c, table, blank, forge, oid, host, Hex).value, Hex, host) ==
      Err(SyntaxError("Unexpected end of JSON input"))
  {
  }

  /** With the class's text written in the requested alphabet, `parse(Class.stringify(forge, e), e)` rebuilds every field whose value round-trips. */
  lemma StaticStringifyInParseRoundTrip(c: TypeDesc, table: Table, blank: F.Record, forge: F.Record, oid: nat, host: Host, encoding: Encoding, i: nat)
    requires IsFactory(c) && ValidTable(table) && i < |table.entries|
    requires F.JSONValuesOf(table.entries, F.Construct(table, blank, forge, host), host).Ok?
    requires F.FieldRoundTrips(table.entries[i], F.Construct(table, blank, forge, host), host)
    ensures StaticStringifyIn(c, table, blank, forge, oid, host, encoding).Ok?
    ensures var parsed := Parse(table, blank, StaticStringifyIn(c, table, blank, forge, oid, host, encoding).value, encoding, host);
      parsed.Ok? && Get(parsed.value, table.entries[i].key) == Get(F.Construct(table, blank, forge, host), table.entries[i].key)
  {
    StringifyInParseRoundTrip(c, table, blank, oid, F.Construct(table, blank, forge, host), host, encoding, i);
  }
}
