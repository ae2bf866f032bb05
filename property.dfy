/**
 * The property registry: `Property[i](options)` calls, the recording pass
 * that collects one token per call, the binding pass that writes field names
 * onto tokens, and the validation that turns the tokens into an
 * ordinal-indexed table with a key map.
 *
 * A schema is modelled by what its constructor does: its field declarations
 * in declaration order (each either a `Property[i](...)` call or an ordinary
 * value) and the own names of the prototypes above the instance.
 */
module Property {
  import opened Wrappers
  import opened Js

  /** `Property[i]` is defined for 0 <= i < PropertyCount. */
  const PropertyCount: nat := 100

  /** A field's `type` option: a resolver function and the type it returns. */
  datatype Resolver = Resolver(fid: nat, result: FieldType)

  /**
   * The options object passed to `Property[i]`. `None` is an absent key;
   * `default == Some(v)` means the key `default` is present with value `v`.
   */
  datatype Options = Options(
    typ: Resolver,
    nullable: Option<bool>,
    nullableItem: Option<bool>,
    default: Option<Value>,
    description: Value,
    metadata: map<string, Value>)

  /** A recorded `PropertyDefinitionObject`; `key` is written by the binding pass. */
  datatype Token = Token(
    id: nat,
    typ: Resolver,
    nullable: bool,
    nullableItem: bool,
    hasDefault: bool,
    description: Value,
    metadata: map<string, Value>,
    key: Option<string>)

  /**
   * A table entry: the token's metadata spread first, then the structural
   * slots. `extra` holds the metadata keys that no structural slot overrides.
   */
  datatype Entry = Entry(
    id: nat,
    typ: Resolver,
    key: string,
    nullable: bool,
    nullableItem: bool,
    hasDefault: bool,
    description: Value,
    extra: map<string, Value>)

  /** The array-like table: entry i at index i, and the key-to-ordinal map. */
  datatype Table = Table(entries: seq<Entry>, keyMap: map<string, nat>)

  /** One field initializer of a schema, in declaration order. */
  datatype FieldDecl =
    | PropertyField(name: string, ordinal: nat, opts: Options)
    | PlainField(name: string, value: Value)

  /** A schema constructor: its field initializers and the own names of each prototype above the instance. */
  datatype Schema = Schema(decls: seq<FieldDecl>, inherited: seq<seq<string>>)

  /** The function handed to `computeProperties`, identified by `tid`. */
  datatype Target = Target(tid: nat, schema: Schema, returnsObject: bool)

  /** What `Property[i](...)` returns: a token while recording, a plain value otherwise. */
  datatype Returned = TokenValue(token: Token) | PlainValue(value: Value)

  /** The slots an entry always owns, which metadata spread first can never override. */
  const StructuralSlots: set<string> :=
    {"id", "type", "key", "nullable", "nullableItem", "default", "description"}

  /** Non-recording result of `Property[i](opts)`: the `default` option when present, else null. */
  function DefaultOf(opts: Options): Value {
    if opts.default.Some? then opts.default.value else Null
  }

  /** The token recorded by `Property[i](opts)`. */
  function MakeToken(i: nat, opts: Options): Token {
    Token(i, opts.typ,
          if opts.nullable.Some? then opts.nullable.value else false,
          if opts.nullableItem.Some? then opts.nullableItem.value else false,
          opts.default.Some? && !IsNullish(opts.default.value),
          opts.description, opts.metadata, None)
  }

  /** `fields[i] = token` on a JavaScript array: grows it with holes when needed. */
  function Put(fields: seq<Option<Token>>, i: nat, t: Token): (r: seq<Option<Token>>)
    ensures |r| == if i < |fields| then |fields| else i + 1
    ensures r[i] == Some(t)
    ensures forall j :: 0 <= j < |r| && j != i ==> r[j] == if j < |fields| then fields[j] else None
  {
    if i < |fields| then fields[i := Some(t)] else fields + seq(i - |fields|, _ => None) + [Some(t)]
  }

  /** The slot `key` of an entry as `entry[key]` with `hasOwnProperty(key)`; None when not owned. */
  function Slot(e: Entry, key: string): Option<Value> {
    if key == "id" then Some(Num(e.id))
    else if key == "type" then Some(Fn(e.typ.fid))
    else if key == "key" then Some(Str(e.key))
    else if key == "nullable" then Some(Bool(e.nullable))
    else if key == "nullableItem" then Some(Bool(e.nullableItem))
    else if key == "default" then Some(Bool(e.hasDefault))
    else if key == "description" then Some(e.description)
    else if key in e.extra then Some(e.extra[key])
    else None
  }

  /** The table entry built from a bound token: `{...metadata, id, type, key, ...}`. */
  function ToEntry(t: Token): Entry {
    Entry(t.id, t.typ, if t.key.Some? then t.key.value else "",
          t.nullable, t.nullableItem, t.hasDefault, t.description,
          t.metadata - StructuralSlots)
  }

  /** Structural slots override same-named metadata keys; other metadata keys survive. */
  lemma EntrySlots(t: Token, k: string)
    requires t.key.Some?
    ensures k in StructuralSlots ==> Slot(ToEntry(t), k).Some?
    ensures k == "id" ==> Slot(ToEntry(t), k) == Some(Num(t.id))
    ensures k == "key" ==> Slot(ToEntry(t), k) == Some(Str(t.key.value))
    ensures k == "description" ==> Slot(ToEntry(t), k) == Some(t.description)
    ensures k !in StructuralSlots ==> Slot(ToEntry(t), k) == if k in t.metadata then Some(t.metadata[k]) else None
  {
  }

  // ---------------------------------------------------------------------
  // Recording pass

  /** How a recording run of the field initializers ends. */
  datatype RunOutcome = RunOutcome(fields: seq<Option<Token>>, fault: Option<Error>)

  /**
   * Runs the field initializers in declaration order while recording: each
   * `Property[i]` call stores its token at index i; a call with i >= 100
   * hits an undefined `Property[i]` and stops the run.
   */
  function Run(fields: seq<Option<Token>>, decls: seq<FieldDecl>): RunOutcome
    decreases |decls|
  {
    if decls == [] then RunOutcome(fields, None)
    else match decls[0]
      case PlainField(_, _) => Run(fields, decls[1..])
      case PropertyField(_, i, opts) =>
        if i >= PropertyCount then RunOutcome(fields, Some(NotAFunction(i)))
        else Run(Put(fields, i, MakeToken(i, opts)), decls[1..])
  }

  /** The options of the last `Property[i]` call among the declarations, if any. */
  function LastOpts(decls: seq<FieldDecl>, i: nat): Option<Options>
    decreases |decls|
  {
    if decls == [] then None
    else
      var rest := LastOpts(decls[1..], i);
      if rest.Some? then rest
      else if decls[0].PropertyField? && decls[0].ordinal == i then Some(decls[0].opts)
      else None
  }

  /** Every token sits at the index of its own ordinal. */
  predicate WellIndexed(fields: seq<Option<Token>>) {
    forall j :: 0 <= j < |fields| && fields[j].Some? ==> fields[j].value.id == j
  }

  /** The array never ends in a hole: its length is one past the highest recorded ordinal. */
  predicate NoTrailingHole(fields: seq<Option<Token>>) {
    |fields| == 0 || fields[|fields| - 1].Some?
  }

  /** No token has been bound to a name yet. */
  predicate Unkeyed(fields: seq<Option<Token>>) {
    forall j :: 0 <= j < |fields| && fields[j].Some? ==> fields[j].value.key.None?
  }

  /**
   * After a recording run without fault, slot i holds the token of the LAST
   * call with ordinal i (an earlier call with the same ordinal is silently
   * overwritten), and holds what it held before when no call used i.
   */
  lemma {:induction false} RunRecordsLast(fields: seq<Option<Token>>, decls: seq<FieldDecl>, i: nat)
    requires Run(fields, decls).fault.None?
    ensures var r := Run(fields, decls).fields;
      && |fields| <= |r|
      && (LastOpts(decls, i).Some? ==> i < |r| && r[i] == Some(MakeToken(i, LastOpts(decls, i).value)))
      && (LastOpts(decls, i).None? && i < |r| ==> r[i] == if i < |fields| then fields[i] else None)
    decreases |decls|
  {
    if decls != [] {
      match decls[0]
      case PlainField(_, _) =>
        RunRecordsLast(fields, decls[1..], i);
      case PropertyField(_, k, opts) =>
        RunRecordsLast(Put(fields, k, MakeToken(k, opts)), decls[1..], i);
    }
  }

  /** A recording run keeps tokens at their own index, unbound, with no trailing hole. */
  lemma {:induction false} RunShape(fields: seq<Option<Token>>, decls: seq<FieldDecl>)
    requires WellIndexed(fields) && NoTrailingHole(fields) && Unkeyed(fields)
    ensures var r := Run(fields, decls).fields;
      WellIndexed(r) && NoTrailingHole(r) && Unkeyed(r)
    decreases |decls|
  {
    if decls != [] {
      match decls[0]
      case PlainField(_, _) =>
        RunShape(fields, decls[1..]);
      case PropertyField(_, k, opts) =>
        if k < PropertyCount {
          RunShape(Put(fields, k, MakeToken(k, opts)), decls[1..]);
        }
    }
  }

  // ---------------------------------------------------------------------
  // Field names: `getAllProperties`

  /** No name occurs twice. */
  predicate NoDup(s: seq<string>) {
    forall i, j :: 0 <= i < j < |s| ==> s[i] != s[j]
  }

  /** Appends, in order, the names not already listed (`indexOf(prop) === -1` then `push`). */
  function AppendNew(acc: seq<string>, names: seq<string>): seq<string>
    decreases |names|
  {
    if names == [] then acc
    else AppendNew(if names[0] in acc then acc else acc + [names[0]], names[1..])
  }

  /** `getAllProperties` from an accumulator: one prototype layer after another. */
  function AllNames(acc: seq<string>, layers: seq<seq<string>>): seq<string>
    decreases |layers|
  {
    if layers == [] then acc else AllNames(AppendNew(acc, layers[0]), layers[1..])
  }

  /** The own names of the instance (first definition order) followed by each prototype's names. */
  function GetAllPropertiesOf(layers: seq<seq<string>>): seq<string> {
    AllNames([], layers)
  }

  /** The names the field initializers define, in declaration order. */
  function DeclNames(decls: seq<FieldDecl>): (r: seq<string>)
    ensures |r| == |decls|
    ensures forall i :: 0 <= i < |decls| ==> r[i] == decls[i].name
  {
    seq(|decls|, i requires 0 <= i < |decls| => decls[i].name)
  }

  /** The prototype chain seen by `getAllProperties`: the instance, then each prototype. */
  function ObjectLayers(s: Schema): seq<seq<string>> {
    [DeclNames(s.decls)] + s.inherited
  }

  /** Appending new names keeps the accumulator as a prefix, adds exactly the given names, and never repeats one. */
  lemma {:induction false} AppendNewSpec(acc: seq<string>, names: seq<string>)
    requires NoDup(acc)
    ensures var r := AppendNew(acc, names);
      && NoDup(r)
      && |acc| <= |r| && r[..|acc|] == acc
      && (forall x :: x in r <==> x in acc || x in names)
    decreases |names|
  {
    if names != [] {
      var next := if names[0] in acc then acc else acc + [names[0]];
      AppendNewSpec(next, names[1..]);
      var r := AppendNew(next, names[1..]);
      assert r[..|next|] == next;
      assert r[..|acc|] == next[..|acc|] == acc;
      forall x ensures x in r <==> x in acc || x in names {
        assert x in names <==> x == names[0] || x in names[1..];
      }
    }
  }

  /** The same, layer after layer. */
  lemma {:induction false} AllNamesSpec(acc: seq<string>, layers: seq<seq<string>>)
    requires NoDup(acc)
    ensures var r := AllNames(acc, layers);
      && NoDup(r)
      && |acc| <= |r| && r[..|acc|] == acc
      && (forall x :: x in r <==> x in acc || exists l :: 0 <= l < |layers| && x in layers[l])
    decreases |layers|
  {
    if layers != [] {
      var next := AppendNew(acc, layers[0]);
      AppendNewSpec(acc, layers[0]);
      AllNamesSpec(next, layers[1..]);
      var r := AllNames(next, layers[1..]);
      assert r[..|acc|] == r[..|next|][..|acc|] == acc;
      forall x ensures x in r <==> x in acc || exists l :: 0 <= l < |layers| && x in layers[l] {
        if x in r && x !in acc && x !in layers[0] {
          var l :| 0 <= l < |layers| - 1 && x in layers[1..][l];
          assert x in layers[l + 1];
        }
        if x !in acc && x !in layers[0] && (exists l :: 0 <= l < |layers| && x in layers[l]) {
          var l :| 0 <= l < |layers| && x in layers[l];
          assert l != 0 && x in layers[1..][l - 1];
        }
      }
    }
  }

  /**
   * `getAllProperties` lists every name of every layer exactly once, and all
   * own names come before every inherited name.
   */
  lemma AllPropertiesOnceOwnFirst(layers: seq<seq<string>>)
    requires |layers| > 0
    ensures var r := GetAllPropertiesOf(layers);
      && NoDup(r)
      && (forall x :: x in r <==> exists l :: 0 <= l < |layers| && x in layers[l])
      && (forall i, j :: 0 <= i < j < |r| && r[j] in layers[0] ==> r[i] in layers[0])
  {
    var own := AppendNew([], layers[0]);
    AppendNewSpec([], layers[0]);
    AllNamesSpec(own, layers[1..]);
    AllNamesSpec([], layers);
    var r := GetAllPropertiesOf(layers);
    assert r == AllNames(own, layers[1..]);
    assert r[..|own|] == own;
    forall i | 0 <= i < |own| ensures r[i] in layers[0] {
      assert r[i] == own[i];
    }
    forall i, j | 0 <= i < j < |r| && r[j] in layers[0] ensures r[i] in layers[0] {
      assert j < |own|;
    }
  }

  // ---------------------------------------------------------------------
  // Binding pass

  /** `obj[name] instanceof PropertyDefinitionObject`: the ordinal of the token the LAST initializer of `name` left there. */
  function HoldsFrom(m: map<string, nat>, decls: seq<FieldDecl>): map<string, nat>
    decreases |decls|
  {
    if decls == [] then m
    else match decls[0]
      case PropertyField(name, i, _) => HoldsFrom(m[name := i], decls[1..])
      case PlainField(name, _) => HoldsFrom(m - {name}, decls[1..])
  }

  function Holds(decls: seq<FieldDecl>): map<string, nat> {
    HoldsFrom(map[], decls)
  }

  /** Some initializer calls `Property[i]`. */
  predicate OrdinalIn(decls: seq<FieldDecl>, i: nat) {
    exists j :: 0 <= j < |decls| && decls[j].PropertyField? && decls[j].ordinal == i
  }

  /** Every ordinal a field holds was used by some initializer. */
  lemma {:induction false} HoldsRecorded(m: map<string, nat>, decls: seq<FieldDecl>, n: string)
    requires n in HoldsFrom(m, decls)
    ensures (n in m && HoldsFrom(m, decls)[n] == m[n]) || OrdinalIn(decls, HoldsFrom(m, decls)[n])
    decreases |decls|
  {
    if decls != [] {
      var m' := match decls[0]
        case PropertyField(name, i, _) => m[name := i]
        case PlainField(name, _) => m - {name};
      HoldsRecorded(m', decls[1..], n);
      var v := HoldsFrom(m, decls)[n];
      if OrdinalIn(decls[1..], v) {
        var j :| 0 <= j < |decls[1..]| && decls[1..][j].PropertyField? && decls[1..][j].ordinal == v;
        assert decls[j + 1] == decls[1..][j];
      } else {
        assert n in m' && m'[n] == v;
        if decls[0].PropertyField? && decls[0].name == n {
          assert decls[0].ordinal == v;
        }
      }
    }
  }

  /** LastOpts finds a call exactly when one exists. */
  lemma {:induction false} LastOptsIff(decls: seq<FieldDecl>, i: nat)
    ensures LastOpts(decls, i).Some? <==> OrdinalIn(decls, i)
    decreases |decls|
  {
    if decls != [] {
      LastOptsIff(decls[1..], i);
      if OrdinalIn(decls[1..], i) {
        var j :| 0 <= j < |decls[1..]| && decls[1..][j].PropertyField? && decls[1..][j].ordinal == i;
        assert decls[j + 1] == decls[1..][j];
      }
      if OrdinalIn(decls, i) && !(decls[0].PropertyField? && decls[0].ordinal == i) {
        var j :| 0 <= j < |decls| && decls[j].PropertyField? && decls[j].ordinal == i;
        assert j > 0 && decls[1..][j - 1] == decls[j];
      }
    }
  }

  /**
   * The binding pass: for each name in turn whose value is a token, write the
   * name onto `targetFields[token.id]`. A token whose ordinal has no slot in
   * the array reads as undefined there, and writing to it throws.
   */
  function Bind(fields: seq<Option<Token>>, names: seq<string>, holds: map<string, nat>): Result<seq<Option<Token>>>
    decreases |names|
  {
    if names == [] then Ok(fields)
    else
      var n := names[0];
      if n !in holds then Bind(fields, names[1..], holds)
      else
        var id := holds[n];
        if id < |fields| && fields[id].Some? then
          Bind(fields[id := Some(fields[id].value.(key := Some(n)))], names[1..], holds)
        else Err(TypeError("Cannot set property 'key' of undefined"))
  }

  /** The last name in binding order whose value is the token with ordinal i. */
  function LastNameFor(names: seq<string>, holds: map<string, nat>, i: nat): Option<string>
    decreases |names|
  {
    if names == [] then None
    else
      var rest := LastNameFor(names[1..], holds, i);
      if rest.Some? then rest
      else if names[0] in holds && holds[names[0]] == i then Some(names[0])
      else None
  }

  /**
   * Binding succeeds when every held ordinal was recorded, changes only the
   * `key` of tokens, and leaves on the token at i the LAST name bound to it.
   */
  lemma {:induction false} BindSpec(fields: seq<Option<Token>>, names: seq<string>, holds: map<string, nat>)
    requires forall n :: n in names && n in holds ==> holds[n] < |fields| && fields[holds[n]].Some?
    ensures Bind(fields, names, holds).Ok?
    ensures var g := Bind(fields, names, holds).value;
      && |g| == |fields|
      && (forall j :: 0 <= j < |g| ==> (g[j].Some? <==> fields[j].Some?))
      && (forall j :: 0 <= j < |g| && g[j].Some? ==>
            g[j].value == fields[j].value.(key := if LastNameFor(names, holds, j).Some?
                                                   then LastNameFor(names, holds, j)
                                                   else fields[j].value.key))
    decreases |names|
  {
    if names != [] {
      var n := names[0];
      if n !in holds {
        BindSpec(fields, names[1..], holds);
      } else {
        var id := holds[n];
        var next := fields[id := Some(fields[id].value.(key := Some(n)))];
        BindSpec(next, names[1..], holds);
      }
    }
  }

  /** A name left on a token by binding is a name that holds that token's ordinal. */
  lemma {:induction false} LastNameForHolds(names: seq<string>, holds: map<string, nat>, i: nat)
    requires LastNameFor(names, holds, i).Some?
    ensures var n := LastNameFor(names, holds, i).value; n in holds && holds[n] == i
    decreases |names|
  {
    if LastNameFor(names[1..], holds, i).Some? {
      LastNameForHolds(names[1..], holds, i);
    }
  }

  // ---------------------------------------------------------------------
  // Validation: the table

  /** The token at j was never bound to a (non-empty) name: `!key` holds. */
  predicate Unbound(fields: seq<Option<Token>>, j: nat)
    requires j < |fields|
  {
    fields[j].Some? && (fields[j].value.key.None? || fields[j].value.key.value == "")
  }

  /** The first unbound token at or after index k, in array order. */
  function FirstUnboundFrom(fields: seq<Option<Token>>, k: nat): (r: Option<nat>)
    ensures r.Some? ==> k <= r.value < |fields| && Unbound(fields, r.value)
    ensures forall j :: k <= j < |fields| && (r.None? || j < r.value) ==> !Unbound(fields, j)
    decreases |fields| - k
  {
    if k >= |fields| then None
    else if Unbound(fields, k) then Some(k)
    else FirstUnboundFrom(fields, k + 1)
  }

  /** The first hole at or after index k. */
  function FirstHoleFrom(fields: seq<Option<Token>>, k: nat): (r: Option<nat>)
    ensures r.Some? ==> k <= r.value < |fields| && fields[r.value].None?
    ensures forall j :: k <= j < |fields| && (r.None? || j < r.value) ==> fields[j].Some?
    decreases |fields| - k
  {
    if k >= |fields| then None
    else if fields[k].None? then Some(k)
    else FirstHoleFrom(fields, k + 1)
  }

  /** The name a token carries into its entry. */
  function KeyOf(t: Token): string {
    if t.key.Some? then t.key.value else ""
  }

  /** `keyMap[key] = id` for the tokens among the first n slots, later writes winning. */
  function KeyMapUpTo(fields: seq<Option<Token>>, n: nat): map<string, nat>
    requires n <= |fields|
  {
    if n == 0 then map[]
    else
      var m := KeyMapUpTo(fields, n - 1);
      if fields[n - 1].Some? then m[KeyOf(fields[n - 1].value) := fields[n - 1].value.id] else m
  }

  function EntriesOf(fields: seq<Option<Token>>): seq<Entry>
    requires forall j :: 0 <= j < |fields| ==> fields[j].Some?
  {
    seq(|fields|, j requires 0 <= j < |fields| => ToEntry(fields[j].value))
  }

  /**
   * The table loop and the contiguity loop of `computeProperties`: the first
   * token without a name fails with its id, then the first hole below the
   * highest ordinal fails with its index; otherwise entry i is built from
   * the token at i and the key map sends each name to its ordinal.
   */
  function Tabulate(fields: seq<Option<Token>>): Result<Table> {
    match FirstUnboundFrom(fields, 0)
    case Some(j) => Err(CouldNotDeterminate(fields[j].value.id))
    case None =>
      match FirstHoleFrom(fields, 0)
      case Some(j) => Err(MissingProperty(j))
      case None => Ok(Table(EntriesOf(fields), KeyMapUpTo(fields, |fields|)))
  }

  /** The whole of `computeProperties` on a target that is not yet cached. */
  function Compute(target: Target): Result<Table> {
    var run := Run([], target.schema.decls);
    if run.fault.Some? then Err(run.fault.value)
    else if !target.returnsObject then Err(NotAnObject)
    else
      var bound :- Bind(run.fields, GetAllPropertiesOf(ObjectLayers(target.schema)), Holds(target.schema.decls));
      Tabulate(bound)
  }

  /** An ordinal-indexed table: entry i has id i, and the key map and the entries agree both ways. */
  predicate ValidTable(t: Table) {
    && (forall i :: 0 <= i < |t.entries| ==>
          t.entries[i].id == i && t.entries[i].key in t.keyMap && t.keyMap[t.entries[i].key] == i)
    && (forall k :: k in t.keyMap ==> t.keyMap[k] < |t.entries| && t.entries[t.keyMap[k]].key == k)
  }

  /** Distinct bound tokens carry distinct names. */
  predicate DistinctKeys(fields: seq<Option<Token>>) {
    forall i, j :: 0 <= i < j < |fields| && fields[i].Some? && fields[j].Some? && fields[i].value.key.Some? ==>
      fields[i].value.key != fields[j].value.key
  }

  lemma {:induction false} KeyMapUpToSpec(fields: seq<Option<Token>>, n: nat)
    requires n <= |fields| && WellIndexed(fields) && DistinctKeys(fields)
    requires forall j :: 0 <= j < n ==> fields[j].Some? && fields[j].value.key.Some?
    ensures var m := KeyMapUpTo(fields, n);
      && (forall i :: 0 <= i < n ==> KeyOf(fields[i].value) in m && m[KeyOf(fields[i].value)] == i)
      && (forall k :: k in m ==> m[k] < n && KeyOf(fields[m[k]].value) == k)
  {
    if n > 0 {
      KeyMapUpToSpec(fields, n - 1);
      var prev := KeyMapUpTo(fields, n - 1);
      var last := fields[n - 1].value;
      var m := KeyMapUpTo(fields, n);
      assert last.id == n - 1;
      assert m == prev[KeyOf(last) := n - 1];
      forall i | 0 <= i < n ensures KeyOf(fields[i].value) in m && m[KeyOf(fields[i].value)] == i {
        if i < n - 1 {
          assert fields[i].value.key != last.key;
          assert KeyOf(fields[i].value) != KeyOf(last);
        }
      }
      forall k | k in m ensures m[k] < n && KeyOf(fields[m[k]].value) == k {
        if k != KeyOf(last) {
          assert k in prev && m[k] == prev[k];
        }
      }
    }
  }

  /** A successful table from well-indexed, distinctly named tokens is a valid table covering every slot. */
  lemma TabulateValid(fields: seq<Option<Token>>)
    requires WellIndexed(fields) && DistinctKeys(fields)
    requires Tabulate(fields).Ok?
    ensures var t := Tabulate(fields).value;
      ValidTable(t) && |t.entries| == |fields|
  {
    var t := Tabulate(fields).value;
    assert FirstUnboundFrom(fields, 0).None? && FirstHoleFrom(fields, 0).None?;
    forall j | 0 <= j < |fields| ensures fields[j].Some? && fields[j].value.key.Some? {
      assert !Unbound(fields, j);
    }
    KeyMapUpToSpec(fields, |fields|);
    forall i | 0 <= i < |t.entries| ensures t.entries[i].key == KeyOf(fields[i].value) {
    }
  }

  // ---------------------------------------------------------------------
  // What `computeProperties` yields, in terms of the schema

  /** The names the binding pass walks. */
  function BindingNames(s: Schema): seq<string> {
    GetAllPropertiesOf(ObjectLayers(s))
  }

  /** Ordinal i ends up with a non-empty field name. */
  predicate BoundOrdinal(s: Schema, i: nat) {
    var n := LastNameFor(BindingNames(s), Holds(s.decls), i);
    n.Some? && n.value != ""
  }

  /** The array left by the recording run of a schema's initializers. */
  function Recorded(s: Schema): seq<Option<Token>> {
    Run([], s.decls).fields
  }

  /**
   * After a fault-free recording run, binding succeeds; slot j holds a token
   * exactly when some initializer used ordinal j, and that token is the one
   * of the last such call, carrying the last name bound to it.
   */
  lemma RecordedThenBound(s: Schema)
    requires Run([], s.decls).fault.None?
    ensures Bind(Recorded(s), BindingNames(s), Holds(s.decls)).Ok?
    ensures var g := Bind(Recorded(s), BindingNames(s), Holds(s.decls)).value;
      && WellIndexed(g) && NoTrailingHole(g) && DistinctKeys(g)
      && (forall j :: 0 <= j < |g| ==> (g[j].Some? <==> OrdinalIn(s.decls, j)))
      && (forall j: nat :: OrdinalIn(s.decls, j) ==> j < |g|)
      && (forall j :: 0 <= j < |g| && g[j].Some? ==>
            LastOpts(s.decls, j).Some? &&
            g[j].value == MakeToken(j, LastOpts(s.decls, j).value).(key := LastNameFor(BindingNames(s), Holds(s.decls), j)))
  {
    var f := Recorded(s);
    var names, holds := BindingNames(s), Holds(s.decls);
    RunShape([], s.decls);
    forall j: nat ensures
      && (LastOpts(s.decls, j).Some? <==> OrdinalIn(s.decls, j))
      && (OrdinalIn(s.decls, j) ==> j < |f| && f[j] == Some(MakeToken(j, LastOpts(s.decls, j).value)))
      && (!OrdinalIn(s.decls, j) && j < |f| ==> f[j].None?)
    {
      LastOptsIff(s.decls, j);
      RunRecordsLast([], s.decls, j);
    }
    forall n | n in names && n in holds ensures holds[n] < |f| && f[holds[n]].Some? {
      HoldsRecorded(map[], s.decls, n);
    }
    BindSpec(f, names, holds);
    var g := Bind(f, names, holds).value;
    forall i, j | 0 <= i < j < |g| && g[i].Some? && g[j].Some? && g[i].value.key.Some?
      ensures g[i].value.key != g[j].value.key
    {
      LastNameForHolds(names, holds, i);
      if LastNameFor(names, holds, j).Some? {
        LastNameForHolds(names, holds, j);
      }
    }
  }

  /**
   * On success the table is ordinal-indexed (entry i has id i and
   * `keyMap[entry.key] == i` both ways), covers exactly the recorded
   * ordinals, and entry i comes from the last `Property[i]` call with the
   * last name bound to its token.
   */
  lemma ComputeOk(target: Target)
    requires Compute(target).Ok?
    ensures var t := Compute(target).value;
      && ValidTable(t)
      && (forall i: nat :: i < |t.entries| <==> OrdinalIn(target.schema.decls, i))
      && (forall i :: 0 <= i < |t.entries| ==>
            LastOpts(target.schema.decls, i).Some? &&
            t.entries[i] == ToEntry(MakeToken(i, LastOpts(target.schema.decls, i).value)
                                    .(key := LastNameFor(BindingNames(target.schema), Holds(target.schema.decls), i))))
  {
    var s := target.schema;
    RecordedThenBound(s);
    var g := Bind(Recorded(s), BindingNames(s), Holds(s.decls)).value;
    assert Compute(target) == Tabulate(g);
    TabulateValid(g);
  }

  /**
   * A recorded ordinal with no field name fails registration with
   * "Could not determinate property <id>", for the smallest such ordinal.
   */
  lemma ComputeFailsUnbound(target: Target, i: nat)
    requires Run([], target.schema.decls).fault.None? && target.returnsObject
    requires OrdinalIn(target.schema.decls, i) && !BoundOrdinal(target.schema, i)
    requires forall j: nat :: j < i && OrdinalIn(target.schema.decls, j) ==> BoundOrdinal(target.schema, j)
    ensures Compute(target) == Err(CouldNotDeterminate(i))
  {
    var s := target.schema;
    RecordedThenBound(s);
    var g := Bind(Recorded(s), BindingNames(s), Holds(s.decls)).value;
    assert Unbound(g, i);
    forall j | 0 <= j < i ensures !Unbound(g, j) {
    }
    assert FirstUnboundFrom(g, 0) == Some(i);
  }

  /**
   * With every recorded ordinal bound, an ordinal below the highest recorded
   * one that no call used fails registration with "Missing Property[i]", for
   * the smallest such i.
   */
  lemma ComputeFailsMissing(target: Target, i: nat, high: nat)
    requires Run([], target.schema.decls).fault.None? && target.returnsObject
    requires forall j: nat :: OrdinalIn(target.schema.decls, j) ==> BoundOrdinal(target.schema, j)
    requires i < high && OrdinalIn(target.schema.decls, high) && !OrdinalIn(target.schema.decls, i)
    requires forall j: nat :: j < i ==> OrdinalIn(target.schema.decls, j)
    ensures Compute(target) == Err(MissingProperty(i))
  {
    var s := target.schema;
    RecordedThenBound(s);
    var g := Bind(Recorded(s), BindingNames(s), Holds(s.decls)).value;
    forall j | 0 <= j < |g| ensures !Unbound(g, j) {
    }
    assert FirstUnboundFrom(g, 0).None?;
    assert g[i].None?;
    assert FirstHoleFrom(g, 0) == Some(i);
  }

  /**
   * Registration succeeds when recording completes, the target returns an
   * object, every recorded ordinal is bound and the ordinals have no gap,
   * even when two calls share an ordinal.
   */
  lemma ComputeSucceeds(target: Target)
    requires Run([], target.schema.decls).fault.None? && target.returnsObject
    requires forall j: nat :: OrdinalIn(target.schema.decls, j) ==> BoundOrdinal(target.schema, j)
    requires forall j: nat, k: nat :: j < k && OrdinalIn(target.schema.decls, k) ==> OrdinalIn(target.schema.decls, j)
    ensures Compute(target).Ok?
  {
    var s := target.schema;
    RecordedThenBound(s);
    var g := Bind(Recorded(s), BindingNames(s), Holds(s.decls)).value;
    forall j | 0 <= j < |g| ensures g[j].Some? && !Unbound(g, j) {
      assert OrdinalIn(s.decls, |g| - 1);
    }
    assert FirstUnboundFrom(g, 0).None?;
    assert FirstHoleFrom(g, 0).None?;
  }

  // ---------------------------------------------------------------------
  // The imperative passes, each proved against its specification function

  /** `getAllProperties(obj)`: the do-while over the prototype chain pushing each unseen name. */
  method GetAllProperties(layers: seq<seq<string>>) returns (allProps: seq<string>)
    ensures allProps == GetAllPropertiesOf(layers)
  {
    allProps := [];
    var curr := 0;
    while curr < |layers|
      invariant 0 <= curr <= |layers|
      invariant AllNames(allProps, layers[curr..]) == GetAllPropertiesOf(layers)
    {
      ghost var before := allProps;
      var props := layers[curr];
      var j := 0;
      while j < |props|
        invariant 0 <= j <= |props|
        invariant AppendNew(allProps, props[j..]) == AppendNew(before, props)
      {
        assert props[j..][1..] == props[j + 1..];
        if props[j] !in allProps {
          allProps := allProps + [props[j]];
        }
        j := j + 1;
      }
      assert layers[curr..][1..] == layers[curr + 1..];
      curr := curr + 1;
    }
  }

  /** The binding loop: `targetFields[prop.id].key = key` for each name whose value is a token. */
  method BindKeys(targetFields: seq<Option<Token>>, names: seq<string>, holds: map<string, nat>)
    returns (r: Result<seq<Option<Token>>>)
    ensures r == Bind(targetFields, names, holds)
  {
    var current := targetFields;
    var i := 0;
    while i < |names|
      invariant 0 <= i <= |names|
      invariant Bind(current, names[i..], holds) == Bind(targetFields, names, holds)
    {
      assert names[i..][1..] == names[i + 1..];
      var key := names[i];
      if key in holds {
        var id := holds[key];
        if id < |current| && current[id].Some? {
          current := current[id := Some(current[id].value.(key := Some(key)))];
        } else {
          return Err(TypeError("Cannot set property 'key' of undefined"));
        }
      }
      i := i + 1;
    }
    return Ok(current);
  }

  /** `Math.max`. */
  function Max(a: nat, b: nat): nat {
    if a > b then a else b
  }

  /** One past the last token among the first k slots, 0 when there is none. */
  function LastTokenEnd(fields: seq<Option<Token>>, k: nat): nat
    requires k <= |fields|
  {
    if k == 0 then 0 else if fields[k - 1].Some? then k else LastTokenEnd(fields, k - 1)
  }

  /** The partial table the table loop builds: entries by ordinal, the key map, and the running counters. */
  datatype Collected = Collected(entries: map<nat, Entry>, keyMap: map<string, nat>, length: nat, maxLength: nat)

  /**
   * The table loop of `computeProperties`, with the source's running
   * `length` and `maxLength = max(length, id + 1)`: fails at the first
   * token without a name, else collects one entry per token.
   */
  method CollectEntries(targetFields: seq<Option<Token>>) returns (r: Result<Collected>)
    requires WellIndexed(targetFields)
    ensures r.Err? <==> FirstUnboundFrom(targetFields, 0).Some?
    ensures r.Err? ==> r.error == CouldNotDeterminate(targetFields[FirstUnboundFrom(targetFields, 0).value].value.id)
    ensures r.Ok? ==>
      && r.value.maxLength == LastTokenEnd(targetFields, |targetFields|)
      && r.value.keyMap == KeyMapUpTo(targetFields, |targetFields|)
      && (forall j: nat :: j in r.value.entries <==> j < |targetFields| && targetFields[j].Some?)
      && (forall j :: j in r.value.entries ==> r.value.entries[j] == ToEntry(targetFields[j].value))
  {
    var length: nat := 0;
    var maxLength: nat := 0;
    var entries: map<nat, Entry> := map[];
    var keyMap: map<string, nat> := map[];
    var k := 0;
    while k < |targetFields|
      invariant 0 <= k <= |targetFields|
      invariant FirstUnboundFrom(targetFields, k) == FirstUnboundFrom(targetFields, 0)
      invariant length <= k && maxLength == LastTokenEnd(targetFields, k)
      invariant forall j: nat :: j in entries <==> j < k && targetFields[j].Some?
      invariant forall j :: j in entries ==> entries[j] == ToEntry(targetFields[j].value)
      invariant keyMap == KeyMapUpTo(targetFields, k)
    {
      if targetFields[k].None? {
        assert !Unbound(targetFields, k);
        forall j: nat ensures j in entries <==> j < k + 1 && targetFields[j].Some? {
          if j == k { assert j !in entries; }
        }
        assert LastTokenEnd(targetFields, k + 1) == LastTokenEnd(targetFields, k);
        assert KeyMapUpTo(targetFields, k + 1) == keyMap;
        k := k + 1;
        continue;
      }
      var property := targetFields[k].value;
      assert property.id == k;
      length := length + 1;
      maxLength := Max(length, property.id + 1);
      if property.key.None? || property.key.value == "" {
        assert Unbound(targetFields, k);
        return Err(CouldNotDeterminate(property.id));
      }
      assert !Unbound(targetFields, k);
      assert KeyOf(property) == property.key.value;
      assert KeyMapUpTo(targetFields, k + 1) == keyMap[KeyOf(property) := k];
      assert maxLength == k + 1 == LastTokenEnd(targetFields, k + 1);
      ghost var before := entries;
      entries := entries[property.id := ToEntry(property)];
      forall j: nat ensures j in entries <==> j < k + 1 && targetFields[j].Some? {
        if j != k { assert j in entries <==> j in before; }
      }
      forall j | j in entries ensures entries[j] == ToEntry(targetFields[j].value) {
        if j != k { assert j in before && entries[j] == before[j]; }
      }
      keyMap := keyMap[property.key.value := property.id];
      k := k + 1;
    }
    return Ok(Collected(entries, keyMap, length, maxLength));
  }

  /**
   * The table loop and the contiguity loop of `computeProperties`: every
   * ordinal below `maxLength` must have an entry.
   */
  method BuildTable(targetFields: seq<Option<Token>>) returns (r: Result<Table>)
    requires WellIndexed(targetFields) && NoTrailingHole(targetFields)
    ensures r == Tabulate(targetFields)
  {
    var collected := CollectEntries(targetFields);
    if collected.Err? {
      return Err(collected.error);
    }
    var entries, keyMap, maxLength := collected.value.entries, collected.value.keyMap, collected.value.maxLength;
    assert maxLength == |targetFields|;
    var i := 0;
    while i < maxLength
      invariant 0 <= i <= maxLength
      invariant FirstHoleFrom(targetFields, i) == FirstHoleFrom(targetFields, 0)
      invariant forall j :: 0 <= j < i ==> j in entries
    {
      if i !in entries {
        return Err(MissingProperty(i));
      }
      i := i + 1;
    }
    var table := seq(maxLength, j requires 0 <= j < maxLength => entries[j]);
    assert table == EntriesOf(targetFields);
    return Ok(Table(table, keyMap));
  }

  /** Whether a call leaves the module in recording mode: it threw before `setEmit(false)`. */
  predicate LeavesRecording(target: Target) {
    Run([], target.schema.decls).fault.Some? || !target.returnsObject
  }

  /**
   * The module state of the registry: the recording flag, the array the
   * recording pass fills, and the cache of computed tables keyed by target.
   */
  class Recorder {
    var emit: bool
    var fields: seq<Option<Token>>
    var cache: map<nat, Table>

    /** Module initialisation: not recording, nothing cached. */
    constructor ()
      ensures !emit && fields == [] && cache == map[]
    {
      emit := false;
      fields := [];
      cache := map[];
    }

    /** `setEmit(state)`: switches the mode and starts a fresh array. */
    method SetEmit(state: bool)
      modifies this`emit, this`fields
      ensures emit == state && fields == []
    {
      fields := [];
      emit := state;
    }

    /**
     * `Property[i](opts)`: undefined for i >= 100; while recording, stores
     * and returns a token with `id == i`; otherwise returns the `default`
     * option when that key is present, else null.
     */
    method Call(i: nat, opts: Options) returns (r: Result<Returned>)
      modifies this`fields
      ensures i >= PropertyCount ==> r == Err(NotAFunction(i)) && fields == old(fields)
      ensures i < PropertyCount && emit ==>
        r == Ok(TokenValue(MakeToken(i, opts))) && fields == Put(old(fields), i, MakeToken(i, opts))
      ensures i < PropertyCount && !emit ==> r == Ok(PlainValue(DefaultOf(opts))) && fields == old(fields)
    {
      if i >= PropertyCount {
        return Err(NotAFunction(i));
      }
      if emit {
        var def := MakeToken(i, opts);
        fields := Put(fields, i, def);
        return Ok(TokenValue(def));
      }
      var defaultValue := Null;
      if opts.default.Some? {
        defaultValue := opts.default.value;
      }
      return Ok(PlainValue(defaultValue));
    }

    /** Runs the field initializers of a schema in declaration order; the first failing call stops them. */
    method RunInitializers(decls: seq<FieldDecl>) returns (fault: Option<Error>)
      requires emit
      modifies this`fields
      ensures fields == Run(old(fields), decls).fields && fault == Run(old(fields), decls).fault
    {
      var i := 0;
      while i < |decls|
        invariant 0 <= i <= |decls|
        invariant Run(fields, decls[i..]) == Run(old(fields), decls)
      {
        assert decls[i..][1..] == decls[i + 1..];
        if decls[i].PropertyField? {
          var result := Call(decls[i].ordinal, decls[i].opts);
          if result.Err? {
            return Some(result.error);
          }
        }
        i := i + 1;
      }
      return None;
    }

    /**
     * `computeProperties(target)`: a cached target returns its table
     * untouched; otherwise the recording, binding and validation passes run,
     * and only a successful table is cached. A throw before `setEmit(false)`
     * leaves the module recording.
     */
    method ComputeProperties(target: Target) returns (r: Result<Table>)
      modifies this
      ensures target.tid in old(cache) ==>
        r == Ok(old(cache)[target.tid]) && emit == old(emit) && fields == old(fields) && cache == old(cache)
      ensures target.tid !in old(cache) ==>
        && r == Compute(target)
        && cache == (if r.Ok? then old(cache)[target.tid := r.value] else old(cache))
        && emit == LeavesRecording(target)
        && fields == (if LeavesRecording(target) then Recorded(target.schema) else [])
    {
      if target.tid in cache {
        return Ok(cache[target.tid]);
      }
      SetEmit(true);
      var fault := RunInitializers(target.schema.decls);
      if fault.Some? {
        return Err(fault.value);
      }
      if !target.returnsObject {
        return Err(NotAnObject);
      }
      var targetFields := fields;
      SetEmit(false);
      var names := GetAllProperties(ObjectLayers(target.schema));
      var bound := BindKeys(targetFields, names, Holds(target.schema.decls));
      if bound.Err? {
        return Err(bound.error);
      }
      RecordedThenBound(target.schema);
      r := BuildTable(bound.value);
      if r.Ok? {
        cache := cache[target.tid := r.value];
      }
    }
  }
}
