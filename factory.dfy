/**
 * The factory engine over a schema's table: the two-pass constructor of a
 * factory-built type, the merged forge of the mixin constructor, and the
 * positional and keyed views of an instance (`toValues`/`fromValues`,
 * `toPlainObject`/`fromPlainObject`, `toJSON`/`toJSONValues`/`fromJSON`).
 *
 * An instance is the record of its own fields. A default producer is a
 * function value `Fn(fid)`; calling it is `host.produce(fid, record)`, where
 * `record` is the object the producer closes over.
 */
module Factory {
  import opened Wrappers
  import opened Js
  import opened Property
  import S = Serializer
  import U = Utils

  /** The own fields of an instance, a forge or a plain object, by name. */
  type Record = map<string, Value>

  /** A fresh plain object `{}` holding the given properties. */
  function PlainObject(r: Record): Value {
    Obj(0, ObjectPrototypeNames, true, r)
  }

  /** The table's field names are pairwise distinct. */
  predicate DistinctNames(entries: seq<Entry>) {
    forall i, j :: 0 <= i < j < |entries| ==> entries[i].key != entries[j].key
  }

  /** An ordinal-indexed table names each field once. */
  lemma ValidTableDistinct(t: Table)
    requires ValidTable(t)
    ensures DistinctNames(t.entries)
  {
    forall i, j | 0 <= i < j < |t.entries| ensures t.entries[i].key != t.entries[j].key {
      assert t.keyMap[t.entries[i].key] == i && t.keyMap[t.entries[j].key] == j;
    }
  }

  /** Some entry of the table is named k. */
  predicate InTable(entries: seq<Entry>, k: string) {
    exists i :: 0 <= i < |entries| && entries[i].key == k
  }

  // ---------------------------------------------------------------------
  // getPropertyNames

  /** `getPropertyNames()`: the key of each entry, in table order. */
  function PropertyNames(t: Table): (r: seq<string>)
    ensures |r| == |t.entries|
    ensures forall i :: 0 <= i < |r| ==> r[i] == t.entries[i].key
  {
    seq(|t.entries|, i requires 0 <= i < |t.entries| => t.entries[i].key)
  }

  /**
   * For a registered schema, the i-th name is the field declared with
   * `Property[i]`, whatever the declaration order: its initializer was the
   * last to assign that name, and it used ordinal i.
   */
  lemma PropertyNamesInOrdinalOrder(target: Target)
    requires Compute(target).Ok?
    ensures var names := PropertyNames(Compute(target).value);
      && (forall i: nat :: i < |names| <==> OrdinalIn(target.schema.decls, i))
      && (forall i :: 0 <= i < |names| ==>
            names[i] in Holds(target.schema.decls) && Holds(target.schema.decls)[names[i]] == i)
  {
    var s := target.schema;
    var t := Compute(target).value;
    ComputeOk(target);
    forall i | 0 <= i < |t.entries|
      ensures t.entries[i].key in Holds(s.decls) && Holds(s.decls)[t.entries[i].key] == i
    {
      RecordedThenBound(s);
      var g := Bind(Recorded(s), BindingNames(s), Holds(s.decls)).value;
      assert Compute(target) == Tabulate(g);
      assert FirstUnboundFrom(g, 0).None? && FirstHoleFrom(g, 0).None?;
      assert !Unbound(g, i);
      LastNameForHolds(BindingNames(s), Holds(s.decls), i);
    }
  }

  // ---------------------------------------------------------------------
  // The schema instance built outside registration

  /** What a field initializer leaves outside a recording run: the `default` option or null, or the plain value. */
  function InitValue(d: FieldDecl): Value {
    match d
    case PropertyField(_, _, opts) => DefaultOf(opts)
    case PlainField(_, v) => v
  }

  /** The names a list declares are those of all but its last element, then the last's. */
  lemma DeclNamesLast(decls: seq<FieldDecl>)
    requires |decls| > 0
    ensures DeclNames(decls) == DeclNames(decls[..|decls| - 1]) + [decls[|decls| - 1].name]
  {
    var init := decls[..|decls| - 1];
    assert forall i :: 0 <= i < |init| ==> init[i] == decls[i];
  }

  /**
   * `new Properties()` outside a recording run: the initializers run in
   * declaration order, each assigning its field; `Property[i]` with i >= 100
   * is undefined and calling it throws.
   */
  function Blank(decls: seq<FieldDecl>): (r: Result<Record>)
    ensures r.Ok? <==> forall j :: 0 <= j < |decls| && decls[j].PropertyField? ==> decls[j].ordinal < PropertyCount
    ensures r.Ok? ==> forall n :: n in r.value <==> n in DeclNames(decls)
    decreases |decls|
  {
    if decls == [] then Ok(map[])
    else
      var last := decls[|decls| - 1];
      var init := decls[..|decls| - 1];
      var prev := Blank(init);
      assert forall j :: 0 <= j < |init| ==> init[j] == decls[j];
      if prev.Err? then prev
      else if last.PropertyField? && last.ordinal >= PropertyCount then Err(NotAFunction(last.ordinal))
      else
        DeclNamesLast(decls);
        Ok(prev.value[last.name := InitValue(last)])
  }

  /** Each field of the blank instance holds what its last initializer left: the `default` option, else null. */
  lemma {:induction false} BlankLastInitializer(decls: seq<FieldDecl>, j: nat)
    requires Blank(decls).Ok? && j < |decls|
    requires forall k :: j < k < |decls| ==> decls[k].name != decls[j].name
    ensures decls[j].name in Blank(decls).value && Blank(decls).value[decls[j].name] == InitValue(decls[j])
    decreases |decls|
  {
    var init := decls[..|decls| - 1];
    if j < |decls| - 1 {
      assert forall k :: 0 <= k < |init| ==> init[k] == decls[k];
      BlankLastInitializer(init, j);
    }
  }

  // ---------------------------------------------------------------------
  // The single-schema constructor

  /** Pass 1 on one field: a non-null forge value is assigned. */
  function AssignStep(self: Record, e: Entry, forge: Record): Record {
    if !IsNullish(Get(forge, e.key)) then self[e.key := forge[e.key]] else self
  }

  /** Pass 1 over the entries, in table order. */
  function Assign(entries: seq<Entry>, self: Record, forge: Record): Record
    decreases |entries|
  {
    if entries == [] then self
    else AssignStep(Assign(entries[..|entries| - 1], self, forge), entries[|entries| - 1], forge)
  }

  /** One more entry extends pass 1 by one step. */
  lemma AssignNext(entries: seq<Entry>, i: nat, self: Record, forge: Record)
    requires i < |entries|
    ensures Assign(entries[..i + 1], self, forge) == AssignStep(Assign(entries[..i], self, forge), entries[i], forge)
  {
    assert entries[..i + 1][..i] == entries[..i];
  }

  /** Pass 2 on one field: with a null forge value, a producer left in the field is replaced by its result. */
  function ProduceStep(self: Record, e: Entry, forge: Record, host: Host): Record {
    if IsNullish(Get(forge, e.key)) && Get(self, e.key).Fn? then
      self[e.key := host.produce(Get(self, e.key).fid, self)]
    else self
  }

  /** Pass 2 over the entries, in ascending ordinal order; each producer sees the instance as it is then. */
  function Produce(entries: seq<Entry>, self: Record, forge: Record, host: Host): Record
    decreases |entries|
  {
    if entries == [] then self
    else ProduceStep(Produce(entries[..|entries| - 1], self, forge, host), entries[|entries| - 1], forge, host)
  }

  /** One more entry extends pass 2 by one step. */
  lemma ProduceNext(entries: seq<Entry>, i: nat, self: Record, forge: Record, host: Host)
    requires i < |entries|
    ensures Produce(entries[..i + 1], self, forge, host) == ProduceStep(Produce(entries[..i], self, forge, host), entries[i], forge, host)
  {
    assert entries[..i + 1][..i] == entries[..i];
  }

  /** `new Factory(Properties)(forge)`: all explicit values first, then the producers. */
  function Construct(t: Table, blank: Record, forge: Record, host: Host): Record {
    Produce(t.entries, Assign(t.entries, blank, forge), forge, host)
  }

  /** After pass 1, a table field holds its non-null forge value; every other field is as before. */
  lemma {:induction false} AssignSpec(entries: seq<Entry>, self: Record, forge: Record, k: string)
    ensures Get(Assign(entries, self, forge), k) ==
      if InTable(entries, k) && !IsNullish(Get(forge, k)) then forge[k] else Get(self, k)
    decreases |entries|
  {
    if entries != [] {
      var init := entries[..|entries| - 1];
      AssignSpec(init, self, forge, k);
      assert InTable(entries, k) <==> InTable(init, k) || entries[|entries| - 1].key == k by {
        if InTable(entries, k) && entries[|entries| - 1].key != k {
          var i :| 0 <= i < |entries| && entries[i].key == k;
          assert init[i] == entries[i];
        }
        if InTable(init, k) {
          var i :| 0 <= i < |init| && init[i].key == k;
          assert entries[i] == init[i];
        }
      }
    }
  }

  /** Pass 2 leaves alone every field no processed entry names. */
  lemma {:induction false} ProduceUntouched(entries: seq<Entry>, self: Record, forge: Record, host: Host, k: string)
    requires forall i :: 0 <= i < |entries| ==> entries[i].key != k
    ensures Get(Produce(entries, self, forge, host), k) == Get(self, k)
    decreases |entries|
  {
    if entries != [] {
      ProduceUntouched(entries[..|entries| - 1], self, forge, host, k);
    }
  }

  /**
   * After pass 2, the field of entry i holds, when its forge value is null
   * and pass 1 left a producer there, the producer's result on the instance
   * as it stood after the producers of lower ordinals; otherwise it is as
   * pass 1 left it.
   */
  lemma ProduceField(entries: seq<Entry>, self: Record, forge: Record, host: Host, i: nat)
    requires DistinctNames(entries) && i < |entries|
    ensures var k := entries[i].key;
      Get(Produce(entries, self, forge, host), k) ==
        if IsNullish(Get(forge, k)) && Get(self, k).Fn? then
          host.produce(Get(self, k).fid, Produce(entries[..i], self, forge, host))
        else Get(self, k)
  {
    var k := entries[i].key;
    ProduceUntouched(entries[..i], self, forge, host, k);
    assert entries[..i + 1][..i] == entries[..i];
    ProducePrefix(entries, self, forge, host, i + 1, k);
  }

  /** Steps past the entry named k do not change field k. */
  lemma {:induction false} ProducePrefix(entries: seq<Entry>, self: Record, forge: Record, host: Host, n: nat, k: string)
    requires n <= |entries|
    requires forall j :: n <= j < |entries| ==> entries[j].key != k
    ensures Get(Produce(entries, self, forge, host), k) == Get(Produce(entries[..n], self, forge, host), k)
    decreases |entries| - n
  {
    if n < |entries| {
      var init := entries[..|entries| - 1];
      assert init[..n] == entries[..n];
      ProducePrefix(init, self, forge, host, n, k);
    } else {
      assert entries[..n] == entries;
    }
  }

  /** Every table field with a non-null forge value ends up holding exactly that value. */
  lemma ExplicitValueWins(t: Table, blank: Record, forge: Record, host: Host, i: nat)
    requires ValidTable(t) && i < |t.entries|
    requires !IsNullish(Get(forge, t.entries[i].key))
    ensures Get(Construct(t, blank, forge, host), t.entries[i].key) == forge[t.entries[i].key]
  {
    ValidTableDistinct(t);
    var k := t.entries[i].key;
    AssignSpec(t.entries, blank, forge, k);
    ProduceField(t.entries, Assign(t.entries, blank, forge), forge, host, i);
  }

  /** Forge keys that name no table field are ignored: such a field keeps its schema value. */
  lemma ForgeExtraIgnored(t: Table, blank: Record, forge: Record, host: Host, k: string)
    requires !InTable(t.entries, k)
    ensures Get(Construct(t, blank, forge, host), k) == Get(blank, k)
  {
    AssignSpec(t.entries, blank, forge, k);
    ProduceUntouched(t.entries, Assign(t.entries, blank, forge), forge, host, k);
  }

  /**
   * A field null or absent in the forge whose schema value is a producer is
   * replaced by the producer's result; the producer runs after every explicit
   * value is set and after the producers of lower ordinals.
   */
  lemma DefaultFills(t: Table, blank: Record, forge: Record, host: Host, i: nat)
    requires ValidTable(t) && i < |t.entries|
    requires IsNullish(Get(forge, t.entries[i].key)) && Get(blank, t.entries[i].key).Fn?
    ensures Get(Construct(t, blank, forge, host), t.entries[i].key) ==
      host.produce(Get(blank, t.entries[i].key).fid, Produce(t.entries[..i], Assign(t.entries, blank, forge), forge, host))
  {
    ValidTableDistinct(t);
    var k := t.entries[i].key;
    AssignSpec(t.entries, blank, forge, k);
    ProduceField(t.entries, Assign(t.entries, blank, forge), forge, host, i);
  }

  /** A field with no default and no forge value stays null. */
  lemma NoDefaultStaysNull(t: Table, blank: Record, forge: Record, host: Host, i: nat)
    requires ValidTable(t) && i < |t.entries|
    requires IsNullish(Get(forge, t.entries[i].key)) && Get(blank, t.entries[i].key) == Null
    ensures Get(Construct(t, blank, forge, host), t.entries[i].key) == Null
  {
    ValidTableDistinct(t);
    AssignSpec(t.entries, blank, forge, t.entries[i].key);
    ProduceField(t.entries, Assign(t.entries, blank, forge), forge, host, i);
  }

  /**
   * The instance a producer sees already holds the explicit forge value of
   * every field, including fields at higher ordinals.
   */
  lemma ProducerSeesExplicit(t: Table, blank: Record, forge: Record, host: Host, i: nat, j: nat)
    requires ValidTable(t) && i < |t.entries| && j < |t.entries|
    requires !IsNullish(Get(forge, t.entries[j].key))
    ensures Get(Produce(t.entries[..i], Assign(t.entries, blank, forge), forge, host), t.entries[j].key) == forge[t.entries[j].key]
  {
    ValidTableDistinct(t);
    var k := t.entries[j].key;
    var self := Assign(t.entries, blank, forge);
    AssignSpec(t.entries, blank, forge, k);
    if j < i {
      assert DistinctNames(t.entries[..i]);
      ProduceField(t.entries[..i], self, forge, host, j);
    } else {
      ProduceUntouched(t.entries[..i], self, forge, host, k);
    }
  }

  /** The imperative constructor: the two loops over the table, proved to build `Construct`. */
  method New(t: Table, blank: Record, forge: Record, host: Host) returns (self: Record)
    ensures self == Construct(t, blank, forge, host)
  {
    var properties := t.entries;
    self := blank;
    var i := 0;
    while i < |properties|
      invariant 0 <= i <= |properties|
      invariant self == Assign(properties[..i], blank, forge)
    {
      AssignNext(properties, i, blank, forge);
      var key := properties[i].key;
      if !IsNullish(Get(forge, key)) {
        self := self[key := forge[key]];
      }
      i := i + 1;
    }
    assert properties[..i] == properties;
    ghost var passOne := self;
    i := 0;
    while i < |properties|
      invariant 0 <= i <= |properties|
      invariant self == Produce(properties[..i], passOne, forge, host)
    {
      ProduceNext(properties, i, passOne, forge, host);
      var key := properties[i].key;
      if IsNullish(Get(forge, key)) && Get(self, key).Fn? {
        self := self[key := host.produce(Get(self, key).fid, self)];
      }
      i := i + 1;
    }
    assert properties[..i] == properties;
  }

  /** The own fields a forge argument offers: a plain object's properties; anything else offers none. */
  function ForgeFields(forge: Value): Record {
    if forge.Obj? then forge.props else map[]
  }

  /**
   * The single-schema constructor on any argument: reading a field of a
   * null or undefined forge throws, unless the table is empty.
   */
  function NewFrom(t: Table, blank: Record, forge: Value, host: Host): (r: Result<Record>)
    ensures r.Err? <==> IsNullish(forge) && |t.entries| > 0
    ensures r.Ok? ==> forall k :: !InTable(t.entries, k) ==> Get(r.value, k) == Get(blank, k)
  {
    if IsNullish(forge) && |t.entries| > 0 then Err(TypeError("Cannot read property of " + (if forge.Null? then "null" else "undefined")))
    else
      var r := Construct(t, blank, ForgeFields(forge), host);
      assert forall k :: !InTable(t.entries, k) ==> Get(r, k) == Get(blank, k) by {
        forall k | !InTable(t.entries, k) ensures Get(r, k) == Get(blank, k) {
          ForgeExtraIgnored(t, blank, ForgeFields(forge), host, k);
        }
      }
      Ok(r)
  }

  // ---------------------------------------------------------------------
  // The mixin constructor

  /** Pass 1 of the mixin constructor on one key: a non-null forge value overrides the copy. */
  function MergeStep(merged: Record, p: string, forge: Record): Record {
    if !IsNullish(Get(forge, p)) then merged[p := forge[p]] else merged
  }

  function Merge(names: seq<string>, merged: Record, forge: Record): Record
    decreases |names|
  {
    if names == [] then merged
    else MergeStep(Merge(names[..|names| - 1], merged, forge), names[|names| - 1], forge)
  }

  /**
   * Pass 2 on one key: a key null in the forge whose schema value is a
   * producer gets the producer's result. `forgeMerge[p]` still holds the
   * schema's producer then, because each key is visited once; the producer
   * closes over the separate blank schema instance.
   */
  function MergeProduceStep(merged: Record, p: string, blank: Record, forge: Record, host: Host): Record {
    if IsNullish(Get(forge, p)) && Get(blank, p).Fn? then merged[p := host.produce(Get(blank, p).fid, blank)] else merged
  }

  function MergeProduce(names: seq<string>, merged: Record, blank: Record, forge: Record, host: Host): Record
    decreases |names|
  {
    if names == [] then merged
    else MergeProduceStep(MergeProduce(names[..|names| - 1], merged, blank, forge, host), names[|names| - 1], blank, forge, host)
  }

  /** The merged forge handed to the mixin base: a copy of the blank schema, overridden, then defaulted. */
  function MixinForge(names: seq<string>, blank: Record, forge: Record, host: Host): Record {
    MergeProduce(names, Merge(names, blank, forge), blank, forge, host)
  }

  lemma {:induction false} MergeSpec(names: seq<string>, merged: Record, forge: Record, k: string)
    ensures k in Merge(names, merged, forge) <==> k in merged || (k in names && !IsNullish(Get(forge, k)))
    ensures Get(Merge(names, merged, forge), k) == if k in names && !IsNullish(Get(forge, k)) then forge[k] else Get(merged, k)
    decreases |names|
  {
    if names != [] {
      var init := names[..|names| - 1];
      MergeSpec(init, merged, forge, k);
      assert names == init + [names[|names| - 1]];
    }
  }

  lemma {:induction false} MergeProduceSpec(names: seq<string>, merged: Record, blank: Record, forge: Record, host: Host, k: string)
    ensures k in MergeProduce(names, merged, blank, forge, host) <==>
      k in merged || (k in names && IsNullish(Get(forge, k)) && Get(blank, k).Fn?)
    ensures Get(MergeProduce(names, merged, blank, forge, host), k) ==
      if k in names && IsNullish(Get(forge, k)) && Get(blank, k).Fn? then host.produce(Get(blank, k).fid, blank) else Get(merged, k)
    decreases |names|
  {
    if names != [] {
      var init := names[..|names| - 1];
      MergeProduceSpec(init, merged, blank, forge, host, k);
      assert names == init + [names[|names| - 1]];
    }
  }

  /** The value the merged forge gives a schema key: the non-null forge value, else the producer's result on the blank instance, else the schema value. */
  function MergedValue(schemaValue: Value, forgeValue: Value, blank: Record, host: Host): Value {
    if !IsNullish(forgeValue) then forgeValue
    else if schemaValue.Fn? then host.produce(schemaValue.fid, blank)
    else schemaValue
  }

  /**
   * The merged forge has exactly the blank schema's keys (forge keys outside
   * it are dropped); each holds the non-null forge value, else the result of
   * the schema's producer on the blank instance, else the schema's value.
   */
  lemma MixinForgeSpec(names: seq<string>, blank: Record, forge: Record, host: Host, k: string)
    requires forall n :: n in names <==> n in blank
    ensures var m := MixinForge(names, blank, forge, host);
      && (k in m <==> k in blank)
      && (k in blank ==> m[k] == MergedValue(blank[k], Get(forge, k), blank, host))
  {
    MergeSpec(names, blank, forge, k);
    MergeProduceSpec(names, Merge(names, blank, forge), blank, forge, host, k);
  }

  /**
   * The mixin constructor: builds the merged forge with the two `for...in`
   * loops over the blank schema's keys, then calls the base constructor
   * exactly once with it.
   */
  method NewMixin(mixin: TypeDesc, names: seq<string>, blank: Record, forge: Record, host: Host)
    returns (forgeMerge: Record, instance: Value)
    ensures forgeMerge == MixinForge(names, blank, forge, host)
    ensures instance == host.construct(mixin, PlainObject(forgeMerge))
  {
    forgeMerge := blank;
    var i := 0;
    while i < |names|
      invariant 0 <= i <= |names|
      invariant forgeMerge == Merge(names[..i], blank, forge)
    {
      assert names[..i + 1][..i] == names[..i];
      var property := names[i];
      if !IsNullish(Get(forge, property)) {
        forgeMerge := forgeMerge[property := forge[property]];
      }
      i := i + 1;
    }
    assert names[..i] == names;
    ghost var merged := forgeMerge;
    i := 0;
    while i < |names|
      invariant 0 <= i <= |names|
      invariant forgeMerge == MergeProduce(names[..i], merged, blank, forge, host)
    {
      assert names[..i + 1][..i] == names[..i];
      var property := names[i];
      if IsNullish(Get(forge, property)) && Get(blank, property).Fn? {
        forgeMerge := forgeMerge[property := host.produce(Get(blank, property).fid, blank)];
      }
      i := i + 1;
    }
    assert names[..i] == names;
    instance := host.construct(mixin, PlainObject(forgeMerge));
  }

  // ---------------------------------------------------------------------
  // Positional and keyed views

  /** `toValues()`: the field of each entry, in ordinal order. */
  function ValuesOf(t: Table, inst: Record): (r: seq<Value>)
    ensures |r| == |t.entries|
    ensures forall i :: 0 <= i < |r| ==> r[i] == Get(inst, t.entries[i].key)
  {
    seq(|t.entries|, i requires 0 <= i < |t.entries| => Get(inst, t.entries[i].key))
  }

  method ToValues(t: Table, inst: Record) returns (values: seq<Value>)
    ensures values == ValuesOf(t, inst)
  {
    values := [];
    var i := 0;
    while i < |t.entries|
      invariant 0 <= i <= |t.entries|
      invariant values == ValuesOf(t, inst)[..i]
    {
      values := values + [Get(inst, t.entries[i].key)];
      i := i + 1;
    }
  }

  /** `values[n]` on an array: undefined past its end. */
  function At(values: seq<Value>, n: nat): Value {
    if n < |values| then values[n] else Undefined
  }

  /** The forge `fromValues` builds: each field keyed by name, read by ordinal. */
  function ValuesForge(entries: seq<Entry>, values: seq<Value>): Record
    decreases |entries|
  {
    if entries == [] then map[]
    else
      var e := entries[|entries| - 1];
      ValuesForge(entries[..|entries| - 1], values)[e.key := At(values, e.id)]
  }

  lemma {:induction false} ValuesForgeSpec(entries: seq<Entry>, values: seq<Value>, i: nat)
    requires DistinctNames(entries) && i < |entries|
    ensures entries[i].key in ValuesForge(entries, values)
    ensures ValuesForge(entries, values)[entries[i].key] == At(values, entries[i].id)
    decreases |entries|
  {
    var init := entries[..|entries| - 1];
    if i < |entries| - 1 {
      assert DistinctNames(init);
      ValuesForgeSpec(init, values, i);
    }
  }

  method FromValuesForge(t: Table, values: seq<Value>) returns (obj: Record)
    ensures obj == ValuesForge(t.entries, values)
  {
    obj := map[];
    var i := 0;
    while i < |t.entries|
      invariant 0 <= i <= |t.entries|
      invariant obj == ValuesForge(t.entries[..i], values)
    {
      assert t.entries[..i + 1][..i] == t.entries[..i];
      var property := t.entries[i];
      obj := obj[property.key := At(values, property.id)];
      i := i + 1;
    }
    assert t.entries[..i] == t.entries;
  }

  /** `fromValues(values)`: the forge read by ordinal, then the constructor. */
  function FromValues(t: Table, blank: Record, values: seq<Value>, host: Host): (r: Record)
    ensures forall k :: !InTable(t.entries, k) ==> Get(r, k) == Get(blank, k)
  {
    var r := Construct(t, blank, ValuesForge(t.entries, values), host);
    assert forall k :: !InTable(t.entries, k) ==> Get(r, k) == Get(blank, k) by {
      forall k | !InTable(t.entries, k) ensures Get(r, k) == Get(blank, k) {
        ForgeExtraIgnored(t, blank, ValuesForge(t.entries, values), host, k);
      }
    }
    r
  }

  /** `fromValues(x.toValues())` reproduces every non-null field of x. */
  lemma ValuesRoundTrip(t: Table, blank: Record, inst: Record, host: Host, i: nat)
    requires ValidTable(t) && i < |t.entries|
    requires !IsNullish(Get(inst, t.entries[i].key))
    ensures Get(FromValues(t, blank, ValuesOf(t, inst), host), t.entries[i].key) == Get(inst, t.entries[i].key)
  {
    ValidTableDistinct(t);
    var forge := ValuesForge(t.entries, ValuesOf(t, inst));
    ValuesForgeSpec(t.entries, ValuesOf(t, inst), i);
    assert forge[t.entries[i].key] == Get(inst, t.entries[i].key);
    ExplicitValueWins(t, blank, forge, host, i);
  }

  /** `toPlainObject()`: the table's fields keyed by name. */
  function PlainOf(entries: seq<Entry>, inst: Record): Record
    decreases |entries|
  {
    if entries == [] then map[]
    else
      var e := entries[|entries| - 1];
      PlainOf(entries[..|entries| - 1], inst)[e.key := Get(inst, e.key)]
  }

  /** The plain object has exactly the table's names, each with the instance's value. */
  lemma {:induction false} PlainOfSpec(entries: seq<Entry>, inst: Record, k: string)
    ensures k in PlainOf(entries, inst) <==> InTable(entries, k)
    ensures k in PlainOf(entries, inst) ==> PlainOf(entries, inst)[k] == Get(inst, k)
    decreases |entries|
  {
    if entries != [] {
      var init := entries[..|entries| - 1];
      PlainOfSpec(init, inst, k);
      if InTable(entries, k) && entries[|entries| - 1].key != k {
        var i :| 0 <= i < |entries| && entries[i].key == k;
        assert init[i] == entries[i];
      }
      if InTable(init, k) {
        var i :| 0 <= i < |init| && init[i].key == k;
        assert entries[i] == init[i];
      }
    }
  }

  method ToPlainObject(t: Table, inst: Record) returns (obj: Record)
    ensures obj == PlainOf(t.entries, inst)
  {
    obj := map[];
    var i := 0;
    while i < |t.entries|
      invariant 0 <= i <= |t.entries|
      invariant obj == PlainOf(t.entries[..i], inst)
    {
      assert t.entries[..i + 1][..i] == t.entries[..i];
      var key := t.entries[i].key;
      obj := obj[key := Get(inst, key)];
      i := i + 1;
    }
    assert t.entries[..i] == t.entries;
  }

  /** `fromPlainObject(x.toPlainObject())` reproduces every non-null field of x. */
  lemma PlainObjectRoundTrip(t: Table, blank: Record, inst: Record, host: Host, i: nat)
    requires ValidTable(t) && i < |t.entries|
    requires !IsNullish(Get(inst, t.entries[i].key))
    ensures Get(Construct(t, blank, PlainOf(t.entries, inst), host), t.entries[i].key) == Get(inst, t.entries[i].key)
  {
    var k := t.entries[i].key;
    assert InTable(t.entries, k);
    PlainOfSpec(t.entries, inst, k);
    ExplicitValueWins(t, blank, PlainOf(t.entries, inst), host, i);
  }

  // ---------------------------------------------------------------------
  // JSON views

  /** `value.map(v => v != null ? toJSON(type, v) : null)`: null elements stay null, the others never throw. */
  function ItemsOut(ty: TypeDesc, items: seq<Value>, host: Host): (r: seq<Value>)
    ensures |r| == |items|
  {
    seq(|items|, j requires 0 <= j < |items| => if IsNullish(items[j]) then Null else S.ToJSON(ty, items[j], host).value)
  }

  /**
   * One field of `toJSON`/`toJSONValues`: null stays null, a list field is
   * converted element by element keeping null elements, any other field goes
   * through the serializer.
   */
  function FieldOut(ft: FieldType, v: Value, host: Host): Result<Value> {
    if IsNullish(v) then Ok(Null)
    else match ft
      case Single(ty) => S.ToJSON(ty, v, host)
      case ListOf(ty) =>
        if v.Arr? then Ok(Arr(ItemsOut(ty, v.items, host)))
        else Err(TypeError("value.map is not a function"))
  }

  /** `value.map(v => v != null ? fromJSON(type, v) : null)`. */
  function ItemsIn(ty: TypeDesc, items: seq<Value>, host: Host): (r: seq<Value>)
    ensures |r| == |items|
    ensures forall j :: 0 <= j < |items| ==> r[j] == if IsNullish(items[j]) then Null else S.FromJSON(ty, items[j], host)
  {
    seq(|items|, j requires 0 <= j < |items| => if IsNullish(items[j]) then Null else S.FromJSON(ty, items[j], host))
  }

  /** One field of `fromJSON`. */
  function FieldIn(ft: FieldType, item: Value, host: Host): Result<Value> {
    if IsNullish(item) then Ok(Null)
    else match ft
      case Single(ty) => Ok(S.FromJSON(ty, item, host))
      case ListOf(ty) =>
        if item.Arr? then Ok(Arr(ItemsIn(ty, item.items, host)))
        else Err(TypeError("item.map is not a function"))
  }

  /** `toJSON()`: each field converted, keyed by name; the first throwing field stops it. */
  function JSONObjectOf(entries: seq<Entry>, inst: Record, host: Host): Result<Record>
    decreases |entries|
  {
    if entries == [] then Ok(map[])
    else
      var e := entries[|entries| - 1];
      var obj :- JSONObjectOf(entries[..|entries| - 1], inst, host);
      var v :- FieldOut(e.typ.result, Get(inst, e.key), host);
      Ok(obj[e.key := v])
  }

  method ToJSON(t: Table, inst: Record, host: Host) returns (r: Result<Record>)
    ensures r == JSONObjectOf(t.entries, inst, host)
  {
    var obj: Record := map[];
    var i := 0;
    while i < |t.entries|
      invariant 0 <= i <= |t.entries|
      invariant JSONObjectOf(t.entries[..i], inst, host) == Ok(obj)
    {
      assert t.entries[..i + 1][..i] == t.entries[..i];
      var property := t.entries[i];
      var value := FieldOut(property.typ.result, Get(inst, property.key), host);
      if value.Err? {
        assert JSONObjectOf(t.entries[..i + 1], inst, host).Err?;
        JSONObjectOfFailsOn(t.entries, inst, host, i + 1);
        return Err(value.error);
      }
      obj := obj[property.key := value.value];
      i := i + 1;
    }
    assert t.entries[..i] == t.entries;
    return Ok(obj);
  }

  /** Once a prefix fails, the whole conversion fails with the same error. */
  lemma {:induction false} JSONObjectOfFailsOn(entries: seq<Entry>, inst: Record, host: Host, n: nat)
    requires n <= |entries| && JSONObjectOf(entries[..n], inst, host).Err?
    ensures JSONObjectOf(entries, inst, host) == JSONObjectOf(entries[..n], inst, host)
    decreases |entries| - n
  {
    if n == |entries| {
      assert entries[..n] == entries;
    } else {
      var init := entries[..|entries| - 1];
      assert init[..n] == entries[..n];
      JSONObjectOfFailsOn(init, inst, host, n);
    }
  }

  /** `values[id] = v` on a JavaScript array: grows it with holes (undefined) when needed. */
  function SetAt(values: seq<Value>, id: nat, v: Value): (r: seq<Value>)
    ensures |r| == if id < |values| then |values| else id + 1
    ensures r[id] == v
    ensures forall j :: 0 <= j < |r| && j != id ==> r[j] == if j < |values| then values[j] else Undefined
  {
    if id < |values| then values[id := v] else values + seq(id - |values|, _ => Undefined) + [v]
  }

  /** `toJSONValues()`: each field converted, stored at its ordinal. */
  function JSONValuesOf(entries: seq<Entry>, inst: Record, host: Host): Result<seq<Value>>
    decreases |entries|
  {
    if entries == [] then Ok([])
    else
      var e := entries[|entries| - 1];
      var values :- JSONValuesOf(entries[..|entries| - 1], inst, host);
      var v :- FieldOut(e.typ.result, Get(inst, e.key), host);
      Ok(SetAt(values, e.id, v))
  }

  /** Once a prefix fails, the whole conversion fails with the same error. */
  lemma {:induction false} JSONValuesOfFailsOn(entries: seq<Entry>, inst: Record, host: Host, n: nat)
    requires n <= |entries| && JSONValuesOf(entries[..n], inst, host).Err?
    ensures JSONValuesOf(entries, inst, host) == JSONValuesOf(entries[..n], inst, host)
    decreases |entries| - n
  {
    if n == |entries| {
      assert entries[..n] == entries;
    } else {
      var init := entries[..|entries| - 1];
      assert init[..n] == entries[..n];
      JSONValuesOfFailsOn(init, inst, host, n);
    }
  }

  method ToJSONValues(t: Table, inst: Record, host: Host) returns (r: Result<seq<Value>>)
    ensures r == JSONValuesOf(t.entries, inst, host)
  {
    var values: seq<Value> := [];
    var i := 0;
    while i < |t.entries|
      invariant 0 <= i <= |t.entries|
      invariant JSONValuesOf(t.entries[..i], inst, host) == Ok(values)
    {
      assert t.entries[..i + 1][..i] == t.entries[..i];
      var property := t.entries[i];
      var value := FieldOut(property.typ.result, Get(inst, property.key), host);
      if value.Err? {
        assert JSONValuesOf(t.entries[..i + 1], inst, host).Err?;
        JSONValuesOfFailsOn(t.entries, inst, host, i + 1);
        return Err(value.error);
      }
      values := SetAt(values, property.id, value.value);
      i := i + 1;
    }
    assert t.entries[..i] == t.entries;
    return Ok(values);
  }

  /** Entry i of a table has id i (the prefix form of an ordinal-indexed table). */
  predicate OrdinalIds(entries: seq<Entry>) {
    forall i :: 0 <= i < |entries| ==> entries[i].id == i
  }

  /** The tuple and the object hold the same converted values, the tuple by position and the object by name. */
  predicate ViewsMatch(entries: seq<Entry>, inst: Record, host: Host, values: seq<Value>, obj: Record) {
    && |values| == |entries|
    && (forall i :: 0 <= i < |entries| ==>
          entries[i].key in obj && values[i] == obj[entries[i].key] &&
          FieldOut(entries[i].typ.result, Get(inst, entries[i].key), host) == Ok(values[i]))
  }

  /** Appending a freshly named field to both views keeps them matched. */
  lemma ViewsMatchNext(entries: seq<Entry>, inst: Record, host: Host, values: seq<Value>, obj: Record, v: Value)
    requires |entries| > 0
    requires ViewsMatch(entries[..|entries| - 1], inst, host, values, obj)
    requires forall i :: 0 <= i < |entries| - 1 ==> entries[i].key != entries[|entries| - 1].key
    requires FieldOut(entries[|entries| - 1].typ.result, Get(inst, entries[|entries| - 1].key), host) == Ok(v)
    ensures ViewsMatch(entries, inst, host, values + [v], obj[entries[|entries| - 1].key := v])
  {
    var n := |entries| - 1;
    var init, e := entries[..n], entries[n];
    var values', obj' := values + [v], obj[e.key := v];
    forall i | 0 <= i < n
      ensures entries[i].key in obj' && values'[i] == obj'[entries[i].key]
      ensures FieldOut(entries[i].typ.result, Get(inst, entries[i].key), host) == Ok(values'[i])
    {
      assert entries[i] == init[i] && values'[i] == values[i];
      assert entries[i].key in obj && values[i] == obj[entries[i].key];
    }
    assert values'[n] == v && obj'[e.key] == v;
  }

  /**
   * The two JSON views agree: on an ordinal-indexed table, `toJSONValues`
   * succeeds exactly when `toJSON` does, and its i-th element is the value
   * `toJSON` stores under the i-th field's name.
   */
  lemma {:induction false} JSONViewsAgree(entries: seq<Entry>, inst: Record, host: Host)
    requires OrdinalIds(entries) && DistinctNames(entries)
    ensures JSONValuesOf(entries, inst, host).Ok? <==> JSONObjectOf(entries, inst, host).Ok?
    ensures JSONValuesOf(entries, inst, host).Ok? ==>
      var values, obj := JSONValuesOf(entries, inst, host).value, JSONObjectOf(entries, inst, host).value;
      && |values| == |entries|
      && (forall i :: 0 <= i < |entries| ==>
            entries[i].key in obj && values[i] == obj[entries[i].key] &&
            FieldOut(entries[i].typ.result, Get(inst, entries[i].key), host) == Ok(values[i]))
    decreases |entries|
  {
    if entries != [] {
      var n := |entries| - 1;
      var init, e := entries[..n], entries[n];
      assert OrdinalIds(init) && DistinctNames(init);
      JSONViewsAgree(init, inst, host);
      var out := FieldOut(e.typ.result, Get(inst, e.key), host);
      if JSONValuesOf(init, inst, host).Ok? && out.Ok? {
        var values, obj := JSONValuesOf(init, inst, host).value, JSONObjectOf(init, inst, host).value;
        assert ViewsMatch(init, inst, host, values, obj);
        assert SetAt(values, e.id, out.value) == values + [out.value];
        assert JSONValuesOf(entries, inst, host) == Ok(values + [out.value]);
        assert JSONObjectOf(entries, inst, host) == Ok(obj[e.key := out.value]);
        ViewsMatchNext(entries, inst, host, values, obj, out.value);
      }
    }
  }

  /** Where `fromJSON` reads a field: by ordinal from an array, by name from any other object. */
  function ItemOf(json: Value, e: Entry): Value {
    match json
    case Arr(items) => At(items, e.id)
    case Obj(_, _, _, props) => Get(props, e.key)
    case _ => Undefined
  }

  /** The forge `fromJSON` builds; reading a field of null or undefined throws. */
  function JSONForgeOf(entries: seq<Entry>, json: Value, host: Host): Result<Record>
    decreases |entries|
  {
    if entries == [] then Ok(map[])
    else
      var e := entries[|entries| - 1];
      var obj :- JSONForgeOf(entries[..|entries| - 1], json, host);
      if IsNullish(json) then Err(TypeError("Cannot read property of " + (if json.Null? then "null" else "undefined")))
      else
        var v :- FieldIn(e.typ.result, ItemOf(json, e), host);
        Ok(obj[e.key := v])
  }

  /** Once a prefix fails, the whole forge fails with the same error. */
  lemma {:induction false} JSONForgeOfFailsOn(entries: seq<Entry>, json: Value, host: Host, n: nat)
    requires n <= |entries| && JSONForgeOf(entries[..n], json, host).Err?
    ensures JSONForgeOf(entries, json, host) == JSONForgeOf(entries[..n], json, host)
    decreases |entries| - n
  {
    if n == |entries| {
      assert entries[..n] == entries;
    } else {
      var init := entries[..|entries| - 1];
      assert init[..n] == entries[..n];
      JSONForgeOfFailsOn(init, json, host, n);
    }
  }

  method FromJSONForge(t: Table, json: Value, host: Host) returns (r: Result<Record>)
    ensures r == JSONForgeOf(t.entries, json, host)
  {
    var obj: Record := map[];
    var i := 0;
    while i < |t.entries|
      invariant 0 <= i <= |t.entries|
      invariant JSONForgeOf(t.entries[..i], json, host) == Ok(obj)
    {
      assert t.entries[..i + 1][..i] == t.entries[..i];
      var property := t.entries[i];
      if IsNullish(json) {
        JSONForgeOfFailsOn(t.entries, json, host, i + 1);
        return Err(TypeError("Cannot read property of " + (if json.Null? then "null" else "undefined")));
      }
      var item := ItemOf(json, property);
      var value := FieldIn(property.typ.result, item, host);
      if value.Err? {
        JSONForgeOfFailsOn(t.entries, json, host, i + 1);
        return Err(value.error);
      }
      obj := obj[property.key := value.value];
      i := i + 1;
    }
    assert t.entries[..i] == t.entries;
    return Ok(obj);
  }

  /** `fromJSON(json)`: the forge read by ordinal or by name, then the constructor. */
  function FromJSON(t: Table, blank: Record, json: Value, host: Host): (r: Result<Record>)
    ensures r.Ok? <==> JSONForgeOf(t.entries, json, host).Ok?
    ensures IsNullish(json) && |t.entries| > 0 ==> r.Err?
    ensures r.Ok? ==> forall k :: !InTable(t.entries, k) ==> Get(r.value, k) == Get(blank, k)
  {
    var forge :- JSONForgeOf(t.entries, json, host);
    var r := Construct(t, blank, forge, host);
    assert forall k :: !InTable(t.entries, k) ==> Get(r, k) == Get(blank, k) by {
      forall k | !InTable(t.entries, k) ensures Get(r, k) == Get(blank, k) {
        ForgeExtraIgnored(t, blank, forge, host, k);
      }
    }
    Ok(r)
  }

  /** Each forge field is the converted item found at the field's ordinal (array) or name (object). */
  lemma {:induction false} JSONForgeSpec(entries: seq<Entry>, json: Value, host: Host)
    requires DistinctNames(entries)
    requires JSONForgeOf(entries, json, host).Ok?
    ensures forall i :: 0 <= i < |entries| ==>
      entries[i].key in JSONForgeOf(entries, json, host).value &&
      Ok(JSONForgeOf(entries, json, host).value[entries[i].key]) == FieldIn(entries[i].typ.result, ItemOf(json, entries[i]), host)
    decreases |entries|
  {
    if entries != [] {
      var init := entries[..|entries| - 1];
      assert DistinctNames(init);
      JSONForgeSpec(init, json, host);
    }
  }

  /**
   * A field whose non-null value survives the JSON views: what `toJSON`
   * writes for it, read back through `fromJSON`'s conversion of the field,
   * is the value itself.
   */
  predicate FieldRoundTrips(e: Entry, inst: Record, host: Host) {
    && !IsNullish(Get(inst, e.key))
    && FieldOut(e.typ.result, Get(inst, e.key), host).Ok?
    && FieldIn(e.typ.result, FieldOut(e.typ.result, Get(inst, e.key), host).value, host) == Ok(Get(inst, e.key))
  }

  /** A non-null value of type `ty` that the serializer writes as a non-null value and reads back as itself. */
  predicate ValueRoundTrips(ty: TypeDesc, x: Value, host: Host) {
    && !IsNullish(x)
    && S.ToJSON(ty, x, host).Ok?
    && !IsNullish(S.ToJSON(ty, x, host).value)
    && S.FromJSON(ty, S.ToJSON(ty, x, host).value, host) == x
  }

  /** Strings, numbers and booleans of the built-in types round-trip. */
  lemma PrimitiveValueRoundTrips(ty: TypeDesc, x: Value, host: Host)
    requires ty == StringType || ty == NumberType || ty == BooleanType
    requires IsPrimitive(x)
    ensures ValueRoundTrips(ty, x, host)
  {
    S.PrimitiveRoundTrip(ty, x, host);
  }

  /**
   * A numeric enumeration member round-trips: written as its name, read back
   * as the same number (the `status` field of a `UserStatus` type).
   */
  lemma EnumValueRoundTrips(members: map<string, Value>, n: int, host: Host)
    requires U.IsEnumObject(true, members)
    requires IntToString(n) in members && members[IntToString(n)].Str?
    requires members[members[IntToString(n)].s].Num?
    requires "fromJSON" !in members && "fromString" !in members
    ensures ValueRoundTrips(ObjectType(true, members), Num(n), host)
  {
    S.EnumRoundTrip(members, n, host);
  }

  /** A single field round-trips when its value does. */
  lemma SingleFieldRoundTrips(e: Entry, inst: Record, host: Host)
    requires e.typ.result.Single?
    requires ValueRoundTrips(e.typ.result.elem, Get(inst, e.key), host)
    ensures FieldRoundTrips(e, inst, host)
  {
  }

  /** A list field round-trips when each element is null or round-trips on its own; the empty list always does. */
  lemma ListFieldRoundTrips(e: Entry, inst: Record, host: Host)
    requires e.typ.result.ListOf? && Get(inst, e.key).Arr?
    requires forall j :: 0 <= j < |Get(inst, e.key).items| ==>
      Get(inst, e.key).items[j] == Null || ValueRoundTrips(e.typ.result.elem, Get(inst, e.key).items[j], host)
    ensures FieldRoundTrips(e, inst, host)
  {
    var ty, items := e.typ.result.elem, Get(inst, e.key).items;
    var out := ItemsOut(ty, items, host);
    var back := ItemsIn(ty, out, host);
    forall j | 0 <= j < |items| ensures back[j] == items[j] {
      if items[j] != Null {
        assert out[j] == S.ToJSON(ty, items[j], host).value;
      }
    }
    assert back == items;
  }

  /**
   * `fromJSON(x.toJSONValues())` reads the array by ordinal and rebuilds
   * every field of x whose value round-trips: scalars, enumeration members,
   * and lists of either.
   */
  lemma JSONValuesRoundTrip(t: Table, blank: Record, inst: Record, host: Host, i: nat)
    requires ValidTable(t) && i < |t.entries|
    requires JSONValuesOf(t.entries, inst, host).Ok?
    requires FieldRoundTrips(t.entries[i], inst, host)
    ensures var json := Arr(JSONValuesOf(t.entries, inst, host).value);
      && FromJSON(t, blank, json, host).Ok?
      && Get(FromJSON(t, blank, json, host).value, t.entries[i].key) == Get(inst, t.entries[i].key)
  {
    ValidTableDistinct(t);
    var e := t.entries[i];
    var values := JSONValuesOf(t.entries, inst, host).value;
    JSONViewsAgree(t.entries, inst, host);
    var json := Arr(values);
    JSONForgeTotal(t.entries, json, host, inst);
    JSONForgeSpec(t.entries, json, host);
    var forge := JSONForgeOf(t.entries, json, host).value;
    assert ItemOf(json, e) == values[i];
    assert FieldOut(e.typ.result, Get(inst, e.key), host) == Ok(values[i]);
    assert forge[e.key] == Get(inst, e.key);
    ExplicitValueWins(t, blank, forge, host, i);
  }

  /**
   * `fromJSON(x.toJSON())`, on the parsed plain object, reads it by name and
   * rebuilds every field of x whose value round-trips.
   */
  lemma JSONObjectRoundTrip(t: Table, blank: Record, inst: Record, host: Host, i: nat)
    requires ValidTable(t) && i < |t.entries|
    requires JSONObjectOf(t.entries, inst, host).Ok?
    requires FieldRoundTrips(t.entries[i], inst, host)
    ensures var json := PlainObject(JSONObjectOf(t.entries, inst, host).value);
      && FromJSON(t, blank, json, host).Ok?
      && Get(FromJSON(t, blank, json, host).value, t.entries[i].key) == Get(inst, t.entries[i].key)
  {
    ValidTableDistinct(t);
    var e := t.entries[i];
    JSONViewsAgree(t.entries, inst, host);
    var obj := JSONObjectOf(t.entries, inst, host).value;
    var json := PlainObject(obj);
    JSONForgeTotal(t.entries, json, host, inst);
    JSONForgeSpec(t.entries, json, host);
    var forge := JSONForgeOf(t.entries, json, host).value;
    assert ItemOf(json, e) == obj[e.key];
    assert FieldOut(e.typ.result, Get(inst, e.key), host) == Ok(obj[e.key]);
    assert forge[e.key] == Get(inst, e.key);
    ExplicitValueWins(t, blank, forge, host, i);
  }

  /**
   * Reading back what the JSON views wrote never throws: each item is null,
   * or what `toJSON` produced for the field, and a list field's item is the
   * array it produced.
   */
  lemma {:induction false} JSONForgeTotal(entries: seq<Entry>, json: Value, host: Host, inst: Record)
    requires OrdinalIds(entries) && DistinctNames(entries)
    requires JSONValuesOf(entries, inst, host).Ok? && JSONObjectOf(entries, inst, host).Ok?
    requires json == Arr(JSONValuesOf(entries, inst, host).value) || json == PlainObject(JSONObjectOf(entries, inst, host).value)
    ensures JSONForgeOf(entries, json, host).Ok?
  {
    JSONViewsAgree(entries, inst, host);
    forall i | 0 <= i < |entries| ensures FieldIn(entries[i].typ.result, ItemOf(json, entries[i]), host).Ok? {
      var values := JSONValuesOf(entries, inst, host).value;
      var obj := JSONObjectOf(entries, inst, host).value;
      assert ItemOf(json, entries[i]) == values[i];
      var v := Get(inst, entries[i].key);
      if !IsNullish(v) && entries[i].typ.result.ListOf? {
        assert v.Arr?;
      }
    }
    JSONForgePrefixOk(entries, json, host, |entries|);
    assert entries[..|entries|] == entries;
  }

  /** A forge whose every field converts builds without throwing. */
  lemma {:induction false} JSONForgePrefixOk(entries: seq<Entry>, json: Value, host: Host, n: nat)
    requires n <= |entries| && !IsNullish(json)
    requires forall i :: 0 <= i < |entries| ==> FieldIn(entries[i].typ.result, ItemOf(json, entries[i]), host).Ok?
    ensures JSONForgeOf(entries[..n], json, host).Ok?
  {
    if n > 0 {
      JSONForgePrefixOk(entries, json, host, n - 1);
      assert entries[..n][..n - 1] == entries[..n - 1];
    }
  }

  // ---------------------------------------------------------------------
  // The built class: static and member capabilities

  /** Where a static or a prototype member of the built class comes from. */
  datatype Origin = Own | CopiedFrom(source: string)

  /** A class whose capabilities are copied: its own static names and its prototype's own names. */
  datatype Source = Source(className: string, statics: seq<string>, members: seq<string>)

  function NamesOf(src: Source, statics: bool): seq<string> {
    if statics then src.statics else src.members
  }

  /** The shared capability base: its own static and prototype member names. */
  const AbstractFactory: Source := Source("AbstractFactory",
    ["length", "name", "prototype", "getProperties", "getPropertyNames", "stringify", "encode", "parse",
     "decode", "fromPlainObject", "fromValues", "fromStrictValues", "fromJSON", "fromJSONString"],
    ["constructor", "toPlainObject", "toValues", "toJSON", "toJSONValues", "encode", "stringify"])

  /** The built class's own static names, snapshotted before copying. */
  const OwnStatics: seq<string> := ["length", "name", "prototype", "Properties", "Serializer"]

  /** The built prototype's own names, snapshotted before copying. */
  const OwnMembers: seq<string> := ["constructor"]

  /** The classes capabilities are copied from, in order: the mixin base first, the shared base last. */
  function Sources(mixin: Option<Source>): (r: seq<Source>)
    ensures |r| > 0 && r[|r| - 1] == AbstractFactory
  {
    if mixin.Some? then [mixin.value, AbstractFactory] else [AbstractFactory]
  }

  function OwnTable(own: seq<string>): (r: map<string, Origin>)
    ensures forall n :: n in r <==> n in own
    ensures forall n :: n in r ==> r[n] == Own
  {
    map n | n in own :: Own
  }

  /** One `forEach` over a source's names: each name not in the own snapshot is (re)defined. */
  function Install(table: map<string, Origin>, own: seq<string>, names: seq<string>, origin: Origin): map<string, Origin>
    decreases |names|
  {
    if names == [] then table
    else
      var prev := Install(table, own, names[..|names| - 1], origin);
      var n := names[|names| - 1];
      if n !in own then prev[n := origin] else prev
  }

  /** The copy loop over the sources, for the statics or the prototype members. */
  function InstallAll(table: map<string, Origin>, own: seq<string>, sources: seq<Source>, statics: bool): map<string, Origin>
    decreases |sources|
  {
    if sources == [] then table
    else
      var src := sources[|sources| - 1];
      Install(InstallAll(table, own, sources[..|sources| - 1], statics), own, NamesOf(src, statics), CopiedFrom(src.className))
  }

  /** One more source extends the copy loop by one `Install`. */
  lemma InstallAllNext(table: map<string, Origin>, own: seq<string>, sources: seq<Source>, k: nat, statics: bool)
    requires k < |sources|
    ensures InstallAll(table, own, sources[..k + 1], statics) ==
      Install(InstallAll(table, own, sources[..k], statics), own, NamesOf(sources[k], statics), CopiedFrom(sources[k].className))
  {
    assert sources[..k + 1][..k] == sources[..k];
  }

  /** The last source that provides a name: the reference reading of "a later source overrides an earlier one". */
  function LastProvider(sources: seq<Source>, n: string, statics: bool): (r: Option<string>)
    ensures r.Some? <==> exists j :: 0 <= j < |sources| && n in NamesOf(sources[j], statics)
    decreases |sources|
  {
    if sources == [] then None
    else
      var src := sources[|sources| - 1];
      var init := sources[..|sources| - 1];
      assert forall j :: 0 <= j < |init| ==> init[j] == sources[j];
      if n in NamesOf(src, statics) then Some(src.className) else LastProvider(init, n, statics)
  }

  lemma {:induction false} InstallSpec(table: map<string, Origin>, own: seq<string>, names: seq<string>, origin: Origin, n: string)
    ensures var r := Install(table, own, names, origin);
      && (n in r <==> n in table || (n !in own && n in names))
      && (n in r ==> r[n] == if n !in own && n in names then origin else table[n])
    decreases |names|
  {
    if names != [] {
      var init := names[..|names| - 1];
      InstallSpec(table, own, init, origin, n);
      assert names == init + [names[|names| - 1]];
    }
  }

  /**
   * After copying, a name from the own snapshot keeps its own definition,
   * and any other name provided by a source holds the copy from the last
   * source providing it; nothing else is added.
   */
  lemma {:induction false} InstallAllSpec(table: map<string, Origin>, own: seq<string>, sources: seq<Source>, statics: bool, n: string)
    ensures var r := InstallAll(table, own, sources, statics);
      var p := LastProvider(sources, n, statics);
      && (n in r <==> n in table || (n !in own && p.Some?))
      && (n in r ==> r[n] == if n !in own && p.Some? then CopiedFrom(p.value) else table[n])
    decreases |sources|
  {
    if sources != [] {
      var init := sources[..|sources| - 1];
      var src := sources[|sources| - 1];
      InstallAllSpec(table, own, init, statics, n);
      InstallSpec(InstallAll(table, own, init, statics), own, NamesOf(src, statics), CopiedFrom(src.className), n);
    }
  }

  /**
   * The class `Factory(Properties)` or `Factory(Mixin, Properties)` returns:
   * its name, and where each own static and prototype member comes from once
   * the capabilities of the mixin base (if any) and then of the shared base
   * have been copied over.
   */
  class FactoryClass {
    var name: string
    var statics: map<string, Origin>
    var members: map<string, Origin>

    constructor (propertiesName: string, mixin: Option<Source>, mixinClassName: string)
      ensures name == if mixin.Some? then "Mixin(" + mixinClassName + ")" else "Factory(" + propertiesName + ")"
      ensures statics == InstallAll(OwnTable(OwnStatics), OwnStatics, Sources(mixin), true)
      ensures members == InstallAll(OwnTable(OwnMembers), OwnMembers, Sources(mixin), false)
    {
      name := if mixin.Some? then "Mixin(" + mixinClassName + ")" else "Factory(" + propertiesName + ")";
      statics := OwnTable(OwnStatics);
      members := OwnTable(OwnMembers);
      new;
      var sources := Sources(mixin);
      var k := 0;
      while k < |sources|
        invariant 0 <= k <= |sources|
        invariant name == if mixin.Some? then "Mixin(" + mixinClassName + ")" else "Factory(" + propertiesName + ")"
        invariant statics == InstallAll(OwnTable(OwnStatics), OwnStatics, sources[..k], true)
        invariant members == InstallAll(OwnTable(OwnMembers), OwnMembers, sources[..k], false)
      {
        InstallAllNext(OwnTable(OwnStatics), OwnStatics, sources, k, true);
        InstallAllNext(OwnTable(OwnMembers), OwnMembers, sources, k, false);
        CopyFrom(sources[k]);
        k := k + 1;
      }
      assert sources[..k] == sources;
    }

    /** One pass of the copy loop: the source's statics, then its prototype members, skipping own names. */
    method CopyFrom(extendClass: Source)
      modifies this
      ensures name == old(name)
      ensures statics == Install(old(statics), OwnStatics, extendClass.statics, CopiedFrom(extendClass.className))
      ensures members == Install(old(members), OwnMembers, extendClass.members, CopiedFrom(extendClass.className))
    {
      var i := 0;
      while i < |extendClass.statics|
        invariant 0 <= i <= |extendClass.statics|
        invariant name == old(name) && members == old(members)
        invariant statics == Install(old(statics), OwnStatics, extendClass.statics[..i], CopiedFrom(extendClass.className))
      {
        assert extendClass.statics[..i + 1][..i] == extendClass.statics[..i];
        var n := extendClass.statics[i];
        if n !in OwnStatics {
          statics := statics[n := CopiedFrom(extendClass.className)];
        }
        i := i + 1;
      }
      assert extendClass.statics[..i] == extendClass.statics;
      i := 0;
      while i < |extendClass.members|
        invariant 0 <= i <= |extendClass.members|
        invariant name == old(name)
        invariant statics == Install(old(statics), OwnStatics, extendClass.statics, CopiedFrom(extendClass.className))
        invariant members == Install(old(members), OwnMembers, extendClass.members[..i], CopiedFrom(extendClass.className))
      {
        assert extendClass.members[..i + 1][..i] == extendClass.members[..i];
        var n := extendClass.members[i];
        if n !in OwnMembers {
          members := members[n := CopiedFrom(extendClass.className)];
        }
        i := i + 1;
      }
      assert extendClass.members[..i] == extendClass.members;
    }

    /**
     * The built class as a field type: a function whose prototype inherits
     * from the schema's prototype, whatever the mixin, and whose statics are
     * its own and copied names.
     */
    function Describe(cid: nat, decorated: bool): (r: TypeDesc)
      reads this
      ensures r.Ctor? && r.statics == statics.Keys
      ensures r.schema == Some(SchemaLink(true, decorated))
    {
      Ctor(cid, statics.Keys, Some(SchemaLink(true, decorated)))
    }
  }

  /** The built class keeps its own `length`, `name`, `prototype`, `Properties`, `Serializer` and `constructor`. */
  lemma OwnNamesKept(mixin: Option<Source>)
    ensures forall n :: n in OwnStatics ==>
      n in InstallAll(OwnTable(OwnStatics), OwnStatics, Sources(mixin), true) &&
      InstallAll(OwnTable(OwnStatics), OwnStatics, Sources(mixin), true)[n] == Own
    ensures "constructor" in InstallAll(OwnTable(OwnMembers), OwnMembers, Sources(mixin), false) &&
      InstallAll(OwnTable(OwnMembers), OwnMembers, Sources(mixin), false)["constructor"] == Own
  {
    forall n | n in OwnStatics
      ensures n in InstallAll(OwnTable(OwnStatics), OwnStatics, Sources(mixin), true) &&
        InstallAll(OwnTable(OwnStatics), OwnStatics, Sources(mixin), true)[n] == Own
    {
      InstallAllSpec(OwnTable(OwnStatics), OwnStatics, Sources(mixin), true, n);
    }
    InstallAllSpec(OwnTable(OwnMembers), OwnMembers, Sources(mixin), false, "constructor");
  }

  /** Every static and member of the shared base that is not an own name is installed from the shared base, overriding a mixin's copy. */
  lemma SharedBaseWins(mixin: Option<Source>, statics: bool, n: string)
    requires n in NamesOf(AbstractFactory, statics)
    requires n !in (if statics then OwnStatics else OwnMembers)
    ensures var own := if statics then OwnStatics else OwnMembers;
      var r := InstallAll(OwnTable(own), own, Sources(mixin), statics);
      n in r && r[n] == CopiedFrom("AbstractFactory")
  {
    var own := if statics then OwnStatics else OwnMembers;
    InstallAllSpec(OwnTable(own), own, Sources(mixin), statics, n);
  }

  /** A mixin base's own capability that the shared base lacks is copied from the mixin base. */
  lemma MixinCapabilityCopied(mixin: Source, statics: bool, n: string)
    requires n in NamesOf(mixin, statics)
    requires n !in NamesOf(AbstractFactory, statics)
    requires n !in (if statics then OwnStatics else OwnMembers)
    ensures var own := if statics then OwnStatics else OwnMembers;
      var r := InstallAll(OwnTable(own), own, Sources(Some(mixin)), statics);
      n in r && r[n] == CopiedFrom(mixin.className)
  {
    var own := if statics then OwnStatics else OwnMembers;
    var srcs := Sources(Some(mixin));
    assert srcs[..1] == [mixin];
    assert LastProvider(srcs, n, statics) == LastProvider([mixin], n, statics) == Some(mixin.className);
    InstallAllSpec(OwnTable(own), own, srcs, statics, n);
  }

  /** `isFactory` on a built class holds exactly when its schema class is decorated. */
  lemma BuiltClassIsFactory(c: FactoryClass, cid: nat, decorated: bool)
    ensures IsFactory(c.Describe(cid, decorated)) <==> decorated
  {
  }
}
