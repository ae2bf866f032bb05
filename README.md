# type-properties core, modelled in Dafny

`@type-properties/core` turns a class whose fields are declared with
`Property[i]({ type, default, ... })` into an ordinal-indexed property table.
From that table it builds instantiable "factory" classes. These have
two-pass construction with default producers, an optional mixin base, and
positional and keyed serialisation through a pluggable serializer.

This project models the runtime core of that package and proves its
contracts. There is one module per source file:

| module | file | models |
|---|---|---|
| `Wrappers` | wrappers.dfy | `Option`, `Result` and the errors the core throws |
| `Js` | js.dfy | the JavaScript values, type descriptors and host callbacks the core touches |
| `Utils` | utils.dfy | `isEnum`, the reversible-enumeration test (`utils.ts`) |
| `Property` | property.dfy | `Property[i]`, `getAllProperties`, `computeProperties` (`Property.ts`) |
| `Properties` | properties.dfy | metadata accessors, `getProperties`/`getProperty`/`hasProperty`/`isProperties`, the `Properties()` decorator (`Properties.ts`) |
| `Serializer` | serializer.dfy | the `toJSON`/`fromJSON` dispatch chains (`Serializer.ts`) |
| `Factory` | factory.dfy | both constructors, the views, the `AbstractFactory` statics, the capability copy and `isFactory` (`Factory.ts`) |
| `JSONSerializer` | json_serializer.dfy | `encodeType`/`decodeType`, and the byte and text codecs built on them (`JSONSerializer.ts`, `Factory.ts`) |

## How the model is built

**Representation.**
- A JavaScript value is a datatype. An object carries the names it answers to (`in`), whether its prototype is the plain-object prototype, and its own properties.
- A type returned by a field's `type()` resolver is a `TypeDesc`. It is one of: String, Number, Boolean; a constructor with its static names and its schema link; or a non-function object such as a TypeScript enum.
- Code the core calls but does not own is gathered in a `Host` record of opaque functions: default producers, capability methods, static capabilities and `new type(value)`.

**Module state is a class.**
- `Property.ts` keeps the recording flag, the token array and the cache. These are the fields of `Property.Recorder`.
- The table attached to each decorated class is the field `tables` of `Properties.Registry`.
- The methods that change this state are proved against specification functions: `Run`, `Bind`, `Tabulate`, `Compute` and `Define`. The properties the source promises are lemmas about those functions.

**Loops are methods.**
- Each loop becomes a `while` loop with invariants, proved equal to a specification function. This covers: the `getAllProperties` do-while, the binding and table loops, the metadata search loops, the constructors' two passes, the view loops and the capability-copy loops.

**Throws are `Result` errors.**
- A `throw` in the source is an `Err` value carrying the source's message kind.

## Model

| member | source | states |
|---|---|---|
| Property.Put | packages/core/src/Property.ts:41 | `fields[i] = token` grows the array with holes; slot i holds the token and every other slot is unchanged |
| Property.EntrySlots | packages/core/src/Property.ts:102-111 | structural slots (`id`, `type`, `key`, `nullable`, `nullableItem`, `default`, `description`) always exist and override same-named metadata keys; other metadata keys survive |
| Property.RunRecordsLast | packages/core/src/Property.ts:22-42 | after recording, slot i holds the token of the LAST `Property[i]` call (duplicates silently overwritten), built with `id = i`, `nullable`/`nullableItem` defaulting to false and `default` true iff a non-null default was given |
| Property.RunShape | packages/core/src/Property.ts:22-42 | recording keeps every token at the index of its ordinal, unbound, with no trailing hole |
| Property.AppendNewSpec | packages/core/src/Property.ts:63-67 | pushing unseen names keeps the list as a prefix, adds exactly the new names and never repeats one |
| Property.AllNamesSpec | packages/core/src/Property.ts:59-70 | the same over every prototype layer |
| Property.AllPropertiesOnceOwnFirst | packages/core/src/Property.ts:59-70 | `getAllProperties` lists every name of the chain exactly once, own names before inherited ones |
| Property.HoldsRecorded | packages/core/src/Property.ts:85-88 | every ordinal a field holds was used by some `Property[i]` call |
| Property.LastOptsIff | packages/core/src/Property.ts:22-42 | a last call with ordinal i exists exactly when some initializer uses i |
| Property.BindSpec | packages/core/src/Property.ts:85-90 | when every held ordinal was recorded, binding succeeds, changes only tokens' `key`, and leaves on each token the LAST name bound to it |
| Property.LastNameForHolds | packages/core/src/Property.ts:85-90 | the name left on token i is a field that holds ordinal i |
| Property.FirstUnboundFrom | packages/core/src/Property.ts:92-101 | finds the first token without a name, and no earlier one is unbound |
| Property.FirstHoleFrom | packages/core/src/Property.ts:115-119 | finds the first hole, and no earlier slot is a hole |
| Property.KeyMapUpToSpec | packages/core/src/Property.ts:112 | with distinct names, `keyMap[entry.key] == i` for every entry, and every key-map entry points back at its entry |
| Property.TabulateValid | packages/core/src/Property.ts:92-119 | a table built from well-indexed, distinctly named tokens is ordinal-indexed, with one entry per slot |
| Property.RecordedThenBound | packages/core/src/Property.ts:76-90 | after a fault-free recording run, binding succeeds; slot j holds a token exactly when some call used j, and it is the last call's token with the last bound name |
| Property.ComputeOk | packages/core/src/Property.ts:72-123 | on success, entry i has `id == i`, the key map agrees with the entries both ways, `length` is the number of recorded ordinals, and entry i comes from the last `Property[i]` call |
| Property.ComputeFailsUnbound | packages/core/src/Property.ts:99-101 | the smallest recorded ordinal with no field name fails with "Could not determinate property <id>" |
| Property.ComputeFailsMissing | packages/core/src/Property.ts:115-119 | with every ordinal bound, the smallest unused ordinal below the highest fails with "Missing Property[i]" |
| Property.ComputeSucceeds | packages/core/src/Property.ts:72-123 | gap-free, fully bound ordinals register successfully, duplicates included |
| Property.GetAllProperties | packages/core/src/Property.ts:59-70 | the do-while loop computes `GetAllPropertiesOf` |
| Property.BindKeys | packages/core/src/Property.ts:85-90 | the binding loop computes `Bind`, failing when a held ordinal has no token |
| Property.CollectEntries | packages/core/src/Property.ts:92-113 | the table loop fails at the first unbound token, else collects one entry per token with the source's running `maxLength` |
| Property.BuildTable | packages/core/src/Property.ts:92-119 | the table and contiguity loops compute `Tabulate` |
| Property.Recorder.constructor | packages/core/src/Property.ts:7-8 | the module starts out not recording, with nothing cached |
| Property.Recorder.SetEmit | packages/core/src/Property.ts:10-13 | sets the mode and starts a fresh array |
| Property.Recorder.Call | packages/core/src/Property.ts:22-50 | `Property[i]` is undefined for i >= 100; while recording it stores and returns the token; otherwise it returns the `default` option when that key is present, else null |
| Property.Recorder.RunInitializers | packages/core/src/Property.ts:76-77 | running the target's initializers in recording mode computes `Run` |
| Property.Recorder.ComputeProperties | packages/core/src/Property.ts:72-123 | a cached target returns its cached table and changes nothing; otherwise the result is `Compute`, only a success is cached, and a throw before `setEmit(false)` leaves the module recording |
| Properties.IndexOf | packages/core/src/Properties.ts:33 | `indexOf` returns the first occurrence at or after `from`, or -1 when there is none |
| Properties.StructuralNamesReserved | packages/core/src/Properties.ts:15-22 | each of `id`, `key`, `nullable`, `nullableItem`, `default`, `type` is a reserved key |
| Properties.RunOfNamesReserved | packages/core/src/Properties.ts:15-35 | every slice of the reserved list between two of its spaces is rejected: a run of neighbouring names, in list order, such as "key nullable" (but not "nullable key") |
| Properties.ReservedSingleWord | packages/core/src/Properties.ts:15-35 | a key without spaces is rejected exactly when it is one of the six structural names |
| Properties.KeyWithLetterSNotReserved | packages/core/src/Properties.ts:15-35 | a key containing the letter `s` is never rejected |
| Properties.DescriptionNotReserved | packages/core/src/Properties.ts:15-35 | `description` is not reserved, so it can be overwritten |
| Properties.DefaultValidate | packages/core/src/Properties.ts:24-30 | the shipped hook rejects exactly a non-string `description` |
| Properties.SetSlot | packages/core/src/Properties.ts:41 | writing slot `key` sets that slot and leaves every other slot, the id, the name and the type unchanged |
| Properties.FindEntry | packages/core/src/Properties.ts:37-39 | finds the first entry with the given field name, and no earlier entry has it |
| Properties.MetadataOf | packages/core/src/Properties.ts:49-62 | returns the slot value of the entry with that name, and throws the same not-found error for an unknown field or a missing slot |
| Properties.HasIffGet | packages/core/src/Properties.ts:49-77 | `hasPropertyMetadata` is true exactly when `getPropertyMetadata` would succeed, and false, not a throw, for an unknown field |
| Properties.DescriptionAlwaysPresent | packages/core/src/Properties.ts:64-77 | every field owns a `description` slot |
| Properties.DefineWritesOneSlot | packages/core/src/Properties.ts:32-47 | a successful define changes only slot `key` of the entry named `name` in that one table; all other entries, slots and tables are unchanged |
| Properties.DefineThenGet | packages/core/src/Properties.ts:32-62 | after a successful define, reading the slot back gives the value written |
| Properties.DefineKeepsValid | packages/core/src/Properties.ts:32-47 | defining metadata keeps every table ordinal-indexed |
| Properties.DefaultHookRejectsDescription | packages/core/src/Properties.ts:24-47 | with the shipped hook, a non-string `description` throws before anything is written |
| Properties.DefineUnknownName | packages/core/src/Properties.ts:36-46 | an unknown field name throws "Property key … was not found" |
| Properties.EmptySchemaTable | packages/core/src/Properties.test.ts:5-13 | an empty schema registers as `{ keyMap: {}, length: 0 }` |
| Properties.Registry.constructor | packages/core/src/Properties.ts:24-30 | no class is decorated yet, and the shipped hook is installed |
| Properties.Registry.GetProperties | packages/core/src/Properties.ts:79-84 | returns the attached table, else throws "Not decorated by Properties" |
| Properties.Registry.IsProperties | packages/core/src/Properties.ts:146-148 | true exactly when a table is attached |
| Properties.Registry.HasProperty | packages/core/src/Properties.ts:94-97 | after the decoration check, exactly membership in `keyMap` |
| Properties.Registry.GetProperty | packages/core/src/Properties.ts:86-92 | returns the entry named `key` when `hasProperty` holds, else throws "… is not a property like" |
| Properties.Registry.Decorate | packages/core/src/Properties.ts:114-140 | computes the table on a fresh closure and attaches it to the class; the error cases are those of `computeProperties`, plus redefining the attachment |
| Properties.Registry.DefineMetadata | packages/core/src/Properties.ts:32-47 | updates the tables exactly as `Define` does, and leaves them unchanged on a throw |
| Properties.Registry.GetMetadata | packages/core/src/Properties.ts:49-62 | the search loop computes `MetadataOf` after the decoration check |
| Properties.Registry.HasMetadata | packages/core/src/Properties.ts:64-77 | throws only for an undecorated target, and otherwise answers `HasMetadataOf` |
| Utils.EnumLookup | packages/core/src/Serializer.ts:9 | `type[value]` is a member of the enumeration, or undefined |
| Utils.NonObjectIsNotEnum | packages/core/src/utils.ts:4-8 | a non-object or null value is not an enumeration |
| Utils.ForeignPrototypeIsNotEnum | packages/core/src/utils.ts:1-6 | an object whose prototype is not the plain-object prototype is not an enumeration |
| Utils.EnumIffEveryKeyReverses | packages/core/src/utils.ts:9-14 | a plain object is rejected exactly when some own key k has `value[value[k]]` not loosely equal to k |
| Utils.EmptyObjectIsEnum | packages/core/src/utils.ts:13-14 | the empty plain object is an enumeration |
| Utils.NumericEnumIsEnum | packages/core/src/Factory.test.ts:8-11 | the compiled `UserStatus` enum, a reverse-mapped numeric enum, qualifies |
| Utils.EnumNumberRoundTrip | packages/core/src/utils.ts:9-12 | in an enumeration, `E[E[n]] == n` for a number mapped to a name |
| Serializer.FirstCapability | packages/core/src/Serializer.ts:14-22 | the first probed name the value answers to, else none of them |
| Serializer.ToJSONRule | packages/core/src/Serializer.ts:7-23 | the enum branch is taken exactly for enumeration types; pass-through only for primitives; a capability is invoked only when present |
| Serializer.ToJSON | packages/core/src/Serializer.ts:7-23 | throws exactly when the `in` test reaches null or undefined |
| Serializer.ToJSONEnumFirst | packages/core/src/Serializer.ts:8-10 | an enumeration type answers `type[value]` before any other check |
| Serializer.ToJSONPrimitive | packages/core/src/Serializer.ts:11-13 | strings, numbers and booleans pass through unchanged |
| Serializer.ToJSONFirstCapability | packages/core/src/Serializer.ts:14-22 | other values use the first of `toJSON`, `toString`, `toNumber`, `toBoolean` they answer to, else come back raw |
| Serializer.ToJSONNullThrows | packages/core/src/Serializer.ts:14 | null and undefined make `toJSON` throw |
| Serializer.FromJSONRule | packages/core/src/Serializer.ts:25-39 | the type's own `fromJSON` comes first; `from*` statics only for a value of the matching kind; construction only for constructors; enum lookup only for enumerations |
| Serializer.FromJSONStaticFirst | packages/core/src/Serializer.ts:26-27 | a type's own `fromJSON` takes precedence over every other rule |
| Serializer.FromJSONKindGated | packages/core/src/Serializer.ts:28-33 | `fromString` is never used for a value that is not a string |
| Serializer.FromJSONBuiltinsPass | packages/core/src/Serializer.ts:34-38 | String, Number and Boolean are never constructed; the value comes back |
| Serializer.FromJSONConstructs | packages/core/src/Serializer.ts:34-35 | another constructor without capability statics yields `new type(value)` |
| Serializer.PrimitiveRoundTrip | packages/core/src/Serializer.ts:7-39 | a primitive value of a built-in type survives `toJSON` then `fromJSON` |
| Serializer.EnumRoundTrip | packages/core/src/Serializer.ts:8-10 | an enum number becomes its name and comes back as the same number |
| Serializer.UserStatusToJSON | packages/core/src/Factory.test.ts:8-11 | `UserStatus` serialises 1 as "ACTIVE"; the way back is `Serializer.EnumRoundTrip` |
| Factory.ValidTableDistinct | packages/core/src/Property.ts:112 | an ordinal-indexed table names each field once |
| Factory.PropertyNamesInOrdinalOrder | packages/core/src/Factory.ts:86-88 | `getPropertyNames` has one name per recorded ordinal, and the i-th is the field declared with `Property[i]`, whatever the declaration order |
| Factory.Blank | packages/core/src/Property.ts:43-49 | the schema instance built outside recording holds exactly the declared names, and fails exactly when some `Property[i]` has i >= 100 |
| Factory.BlankLastInitializer | packages/core/src/Property.ts:43-49 | each blank field holds what its last initializer left: the `default` option, else null |
| Factory.AssignSpec | packages/core/src/Factory.ts:243-247 | after pass 1, a table field holds its non-null forge value, and every other field is unchanged |
| Factory.ProduceUntouched | packages/core/src/Factory.ts:248-252 | pass 2 changes no field outside the processed entries |
| Factory.ProduceField | packages/core/src/Factory.ts:248-252 | a producer left in a field with a null forge value is replaced by its result on the instance as it stood after the lower ordinals' producers |
| Factory.ExplicitValueWins | packages/core/src/Factory.ts:239-253 | every table field with a non-null forge value ends up holding exactly that value, so its default is suppressed |
| Factory.ForgeExtraIgnored | packages/core/src/Factory.ts:239-253 | forge keys that name no table field are ignored |
| Factory.DefaultFills | packages/core/src/Factory.ts:248-252 | a null or absent field whose placeholder is a producer gets the producer's result; producers run in ascending ordinal order, after all explicit values |
| Factory.NoDefaultStaysNull | packages/core/src/Factory.ts:243-252 | a field with no default and no forge value stays null |
| Factory.ProducerSeesExplicit | packages/core/src/Factory.ts:243-252 | the instance a producer sees already holds the explicit values of every field, including those at higher ordinals |
| Factory.New | packages/core/src/Factory.ts:239-253 | the single-schema constructor's two loops compute `Construct` |
| Factory.NewFrom | packages/core/src/Factory.ts:244 | a null or undefined forge throws exactly when the table is non-empty; fields outside the table are those of the blank instance |
| Factory.MergeSpec | packages/core/src/Factory.ts:225-230 | the merge pass overrides exactly the keys with non-null forge values |
| Factory.MergeProduceSpec | packages/core/src/Factory.ts:231-235 | the default pass replaces exactly the keys that are null in the forge and hold a producer in the blank instance |
| Factory.MixinForgeSpec | packages/core/src/Factory.ts:222-237 | the merged forge has exactly the blank schema's keys; each holds the non-null forge value, else the producer's result on the blank instance, else the schema value |
| Factory.NewMixin | packages/core/src/Factory.ts:222-237 | the mixin constructor's loops build `MixinForge`, then call the base constructor exactly once with it |
| Factory.ValuesOf | packages/core/src/Factory.ts:153-159 | `toValues` has length N, and its i-th element is the ordinal-i field's value |
| Factory.ToValues | packages/core/src/Factory.ts:153-159 | the push loop computes `ValuesOf` |
| Factory.ValuesForgeSpec | packages/core/src/Factory.ts:110-116 | `fromValues`' forge keys each field by name and reads it by ordinal, as undefined past the end |
| Factory.FromValuesForge | packages/core/src/Factory.ts:110-116 | the forge loop computes `ValuesForge` |
| Factory.FromValues | packages/core/src/Factory.ts:110-116 | `fromValues` leaves every field outside the table as in the blank instance |
| Factory.ValuesRoundTrip | packages/core/src/Factory.ts:110-159 | `fromValues(x.toValues())` reproduces every non-null field of x |
| Factory.PlainOfSpec | packages/core/src/Factory.ts:145-151 | `toPlainObject` has exactly the table's names, each with the instance's value |
| Factory.ToPlainObject | packages/core/src/Factory.ts:145-151 | the copy loop computes `PlainOf` |
| Factory.PlainObjectRoundTrip | packages/core/src/Factory.ts:106-108 | `fromPlainObject(x.toPlainObject())` reproduces every non-null field of x |
| Factory.ToJSON | packages/core/src/Factory.ts:161-179 | the loop computes `JSONObjectOf`: null stays null, list fields are converted element by element keeping null elements, and the first throwing field stops it |
| Factory.ToJSONValues | packages/core/src/Factory.ts:181-199 | the loop computes `JSONValuesOf`, storing each field at its ordinal |
| Factory.SetAt | packages/core/src/Factory.ts:192 | `values[id] = v` sets slot id, leaves the other slots, and fills new slots with holes |
| Factory.JSONViewsAgree | packages/core/src/Factory.ts:161-199 | on an ordinal-indexed table, `toJSONValues` succeeds exactly when `toJSON` does, and its i-th element is what `toJSON` stores under the i-th name |
| Factory.ItemsIn | packages/core/src/Factory.ts:133-134 | a list field is read element by element: a null element stays null, any other element goes through `fromJSON` with the item type |
| Factory.FromJSONForge | packages/core/src/Factory.ts:122-139 | the loop computes `JSONForgeOf`: by ordinal from an array, by name otherwise, throwing on a null or undefined json |
| Factory.JSONForgeSpec | packages/core/src/Factory.ts:122-139 | each forge field is the converted item found at the field's ordinal (array) or name (object) |
| Factory.FromJSON | packages/core/src/Factory.ts:122-139 | `fromJSON` fails exactly when its forge does, which includes a null json for a non-empty table |
| Factory.PrimitiveValueRoundTrips | packages/core/src/Serializer.ts:11-12 | a string, number or boolean of a built-in type is written as itself and read back as itself |
| Factory.EnumValueRoundTrips | packages/core/src/Serializer.ts:8-9 | a numeric enumeration member (the `status` field of packages/core/src/Factory.test.ts:167,189) is written as its name and read back as the same number |
| Factory.SingleFieldRoundTrips | packages/core/src/Factory.ts:133-135 | a single field round-trips through the JSON views when its value does |
| Factory.ListFieldRoundTrips | packages/core/src/Factory.ts:133-134 | a list field round-trips when each element is null or round-trips itself; the empty list always does |
| Factory.JSONValuesRoundTrip | packages/core/src/Factory.ts:122-139 | `fromJSON(x.toJSONValues())` reads the array by ordinal and rebuilds every field whose value round-trips: scalars, enumeration members, and lists of either |
| Factory.JSONObjectRoundTrip | packages/core/src/Factory.ts:122-179 | `fromJSON` on the parsed `x.toJSON()` reads it by name and rebuilds every field whose value round-trips: scalars, enumeration members, and lists of either |
| Factory.JSONForgeTotal | packages/core/src/Factory.ts:122-139 | reading back what either JSON view wrote never throws |
| Factory.Sources | packages/core/src/Factory.ts:274 | the classes copied from: the mixin base first (if any), `AbstractFactory` last |
| Factory.InstallSpec | packages/core/src/Factory.ts:275-285 | one `forEach` defines every listed name not in the own snapshot, and nothing else |
| Factory.InstallAllSpec | packages/core/src/Factory.ts:271-286 | after copying, own names keep their definitions, and every other provided name holds the copy from the last source providing it |
| Factory.FactoryClass.constructor | packages/core/src/Factory.ts:211-288 | the built class's name, and its statics and prototype members after the copy loop |
| Factory.FactoryClass.CopyFrom | packages/core/src/Factory.ts:275-285 | one source's statics then prototype members are installed, skipping own names |
| Factory.FactoryClass.Describe | packages/core/src/Factory.ts:260-272 | the built class is a function whose prototype inherits from its schema's prototype, with its own and copied statics |
| Factory.OwnNamesKept | packages/core/src/Factory.ts:268-286 | `length`, `name`, `prototype`, `Properties`, `Serializer` and `constructor` are never replaced |
| Factory.SharedBaseWins | packages/core/src/Factory.ts:274-286 | every non-own static and member of `AbstractFactory` is installed from it, overriding a mixin's copy |
| Factory.MixinCapabilityCopied | packages/core/src/Factory.ts:274-286 | a mixin base's capability that `AbstractFactory` lacks is copied from the mixin base |
| Factory.BuiltClassIsFactory | packages/core/src/Factory.ts:293-298 | `isFactory` holds of a built class exactly when its schema class is decorated |
| JSONSerializer.ParseBytes | packages/core/src/JSONSerializer.ts:14 | parsing gives back the JSON the bytes hold, and throws on anything else |
| JSONSerializer.StringifyBytes | packages/core/src/JSONSerializer.ts:10 | undefined and functions cannot be encoded; any other value parses back to itself in the model, whose codec is abstract (Node's `JSON.parse` returns a fresh plain object and drops nested functions and undefined) |
| JSONSerializer.EncodeType | packages/core/src/JSONSerializer.ts:6-11 | a value of a factory type is written as its ordinal tuple `toJSONValues()`, anything else as its own JSON |
| JSONSerializer.DecodeType | packages/core/src/JSONSerializer.ts:13-16 | decoding parses the bytes and applies the shared `fromJSON` with the given type |
| JSONSerializer.PlainValueRoundTrip | packages/core/src/JSONSerializer.ts:6-16 | for a non-factory type, decoding what was encoded is `fromJSON` on the value itself |
| JSONSerializer.FactoryValueRoundTrip | packages/core/src/JSONSerializer.ts:6-16 | for a factory type, decoding what was encoded hands the ordinal tuple to the type's own `fromJSON` |
| JSONSerializer.FactoryDecodeRebuilds | packages/core/src/JSONSerializer.ts:6-16 | when the type's `fromJSON` is the one copied from `AbstractFactory` (`Factory.SharedBaseWins`), decoding what was encoded rebuilds, by ordinal, every field whose value round-trips (scalars, enumeration members, lists of either) |
| JSONSerializer.Encode | packages/core/src/Factory.ts:201-203 | `instance.encode()` is the JSON of its ordinal tuple |
| JSONSerializer.FromText | packages/core/src/Factory.ts:98-100 | text read in its own alphabet gives its bytes back |
| JSONSerializer.Stringify | packages/core/src/Factory.ts:205-207 | `instance.stringify(encoding)` always renders base64, whatever encoding was asked for |
| JSONSerializer.StringifyIn | packages/core/src/Factory.ts:205-207 | the text renders the instance's bytes in the requested alphabet |
| JSONSerializer.FromJSONString | packages/core/src/Factory.ts:141-143 | `fromJSONString` succeeds exactly on JSON text whose fields convert, and then constructs from that forge |
| JSONSerializer.Parse | packages/core/src/Factory.ts:98-100 | `parse` in the text's own alphabet is `fromJSONString` on its bytes; in another alphabet it throws |
| JSONSerializer.StaticStringify | packages/core/src/Factory.ts:90-92 | the class's `stringify` builds an instance and renders its ordinal tuple, always in base64, whatever encoding was asked for |
| JSONSerializer.StaticStringifyIn | packages/core/src/Factory.ts:35 | the class's `stringify` as its signature promises: the ordinal tuple rendered in the requested alphabet |
| JSONSerializer.StaticEncode | packages/core/src/Factory.ts:94-96 | the class's `encode` builds an instance and writes its ordinal tuple |
| JSONSerializer.StaticDecode | packages/core/src/Factory.ts:102-104 | the class's `decode` hands the parsed JSON to the class's own `fromJSON` |
| JSONSerializer.StaticEncodeDecodeRoundTrip | packages/core/src/Factory.ts:94-104 | with the shared `fromJSON`, `decode(encode(forge))` rebuilds every field of the instance the forge builds whose value round-trips (scalars, enumeration members, lists of either) |
| JSONSerializer.StringifyParseRoundTrip | packages/core/src/Factory.ts:98-100 | with the default alphabet, `parse(x.stringify())` rebuilds every field of x whose value round-trips (scalars, enumeration members, lists of either), such as the enum `status` of packages/core/src/Factory.test.ts:189 |
| JSONSerializer.HexStringifyParseFails | packages/core/src/Factory.ts:205-207 | as written, `parse(x.stringify('hex'), 'hex')` always throws |
| JSONSerializer.StringifyInParseRoundTrip | packages/core/src/Factory.ts:205-207 | with the text rendered in the requested alphabet, `parse` in either alphabet rebuilds every field whose value round-trips |
| JSONSerializer.StaticHexStringifyParseFails | packages/core/src/Factory.ts:90-92 | as written, `parse(Class.stringify(forge, 'hex'), 'hex')` always throws |
| JSONSerializer.StaticStringifyInParseRoundTrip | packages/core/src/Factory.ts:98-100 | with the class's text rendered in the requested alphabet, `parse` with that alphabet rebuilds every field whose value round-trips |

## Left out

- `Reflect.defineMetadata` publication in `Properties()` (packages/core/src/Properties.ts:117-131). It is best-effort host reflection inside `try`/`catch`, and the table it publishes is the one attached anyway.
- `JSON.stringify`/`JSON.parse` text, `Buffer`, and base64 or hex rendering are abstract.
  - Bytes are represented by the JSON value they hold.
  - A text is represented by its alphabet and its bytes.
  - `JSON.stringify`'s own `toJSON` calls on nested values are not modelled.
  - `FromText` states two facts of Node's decoders instead of deriving them. Base64 text of a JSON array read as hex gives no bytes. Any other mismatched read gives bytes that are not JSON.
- The byte-exact stable text of a given instance (the fixed base64 output in packages/core/src/Factory.test.ts:170-190) is not modelled, because the text codecs are abstract.
- Loose equality `value[value[k]] == k` compares a number or a boolean with the canonical decimal text of its value only (`Js.LooseEqualsString`). JavaScript converts the string to a number instead, so `1 == "01"`, `0 == ""` and `true == "01"` hold there but not in the model. `Utils.EnumIffEveryKeyReverses` therefore accepts fewer objects than `isEnum` does when such keys occur.
- Numbers are integers. Floating point, `NaN`, and number-to-string conversion of non-integers are not modelled, so enum keys are the decimal text of integers.
- Default producers, capability methods (`toJSON`, `toString`, ...), static capabilities and `new type(value)` are opaque `Host` callbacks. Dates, and a producer that throws, are therefore not modelled.
- The JSON round trips (`Factory.JSONValuesRoundTrip` and the codec lemmas built on it) hold for every field satisfying `Factory.FieldRoundTrips`. The model proves that premise for scalars, numeric enumeration members and lists of either. A Date or other class-typed field satisfies it only if the host's `toJSON` and `new type(value)` invert each other, which the model cannot state. An `undefined` list element comes back as `null`, as `value != null ? … : null` makes it.
- Class `name` rewriting is modelled only as the string it assigns. `Object.defineProperty` descriptors and configurability are not modelled.
- `Object.setPrototypeOf` is reduced to the `prototypeInherits` flag of the schema link.
- `typings.ts`, the compile-time duplicate-ordinal and constructor checks (packages/core/src/Properties.ts:99-108), `decorators.ts`, `Test4.ts` and `index.ts` are not part of this model. They hold no runtime logic of the core.
- An undecorated subclass of a decorated class inherits the `$properties$` slot through the constructor's prototype chain. The registry attaches tables by class identity and does not model that inheritance.
- The reserved-key check is proved in one direction for runs: every space-delimited slice of the list is reserved (`Properties.RunOfNamesReserved`). The converse, that no other multi-word key is reserved, is proved only for keys without a space (`Properties.ReservedSingleWord`).
- Reading a field of a forge or JSON value that is an array, a string or another primitive gives undefined in the model. `json['length']` on a string, and similar reads, are not modelled.
- Integer-like keys, which `for...in` and `Object.getOwnPropertyNames` list first in ascending order, are kept in declaration order. A field named `__proto__` is not modelled.
- A forge is read through its own properties. A field named after an `Object.prototype` method would read that method; this is not modelled.
- Blank construction (`Factory.Blank`) assumes the module is not recording. A `computeProperties` that threw before `setEmit(false)` leaves it recording, so every later `Property[i]` returns a token; construction in that state is not modelled.
- Factory.NewMixin: a null or undefined forge throws in the source when the blank schema has a field; the model takes the forge as a record and does not cover that case. The single-schema `Factory.NewFrom` does.
- Factory.FromValues, Factory.FromJSON and JSONSerializer.FromJSONString compose the forge with the single-schema constructor. On a mixin class the same forge goes to `Factory.NewMixin`.
- Factory.ToJSON: `value.map` on a list field whose value is not an array is modelled as a `TypeError`. An object with its own `map` method is not modelled.
- JSONSerializer.FactoryDecodeRebuilds and JSONSerializer.StaticEncodeDecodeRoundTrip take as a premise (`JSONSerializer.RunsSharedFromJSON`) that the host runs the class's `fromJSON` as the shared base's `Factory.FromJSON`. The model proves that this static is the one copied from `AbstractFactory` (`Factory.SharedBaseWins`), but static dispatch itself is a `Host` callback.
- The cache hit of `computeProperties` cannot happen on the decorator path, because each decoration passes a fresh closure. `Properties.Registry.Decorate` requires that closure to be uncached.

## Findings

| source | as written | input that shows it | evidently intended | confidence | as-written member | corrected member |
|---|---|---|---|---|---|---|
| packages/core/src/Factory.ts:205-207 | `stringify(encoding)` ignores its argument and always renders base64, so the class's `stringify(forge, 'hex')` yields base64 text | `User.parse(User.stringify(forge, 'hex'), 'hex')` for any forge of a decorated schema: the hex decoder stops at the leading `W` of the base64 text, and `JSON.parse('')` throws | the text is rendered in the requested alphabet, so `parse` with the same alphabet round-trips, as the signatures of `stringify` and `parse` suggest | not executed; high | JSONSerializer.StaticHexStringifyParseFails | JSONSerializer.StaticStringifyInParseRoundTrip |

The signatures of `stringify` (packages/core/src/Factory.ts:21 for the instance, :35 for the class) accept `'hex' | 'base64'`, and `parse` (packages/core/src/Factory.ts:98) reads either alphabet. The instance-level half of the discrepancy is `JSONSerializer.HexStringifyParseFails`, and its correction is `JSONSerializer.StringifyInParseRoundTrip`. The members that model the code, `JSONSerializer.Stringify` and `JSONSerializer.StaticStringify`, keep the as-written base64 behaviour. The corrected twins are `JSONSerializer.StringifyIn` and `JSONSerializer.StaticStringifyIn`.
