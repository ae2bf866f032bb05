/**
 * The decorated side of the registry: the table a schema class carries under
 * its `$properties$` slot once `@Properties()` has run, the lookups over it,
 * and the metadata accessors that read and update its entries in place,
 * guarded by a reserved-key check and a replaceable validation hook.
 */
module Properties {
  import opened Wrappers
  import opened Js
  import opened Property

  /** The space-delimited list the reserved-key check searches. */
  const IgnoreProperty: string := " id key nullable nullableItem default type "

  /** The six structural names a metadata write may never target. */
  const ReservedNames: set<string> := {"id", "key", "nullable", "nullableItem", "default", "type"}

  /** `pat` occurs in `s` starting at index i. */
  predicate OccursAt(s: string, pat: string, i: nat) {
    i + |pat| <= |s| && s[i..i + |pat|] == pat
  }

  /** `s.indexOf(pat, from)`: the first occurrence at or after `from`, or -1. */
  function IndexOf(s: string, pat: string, from: nat): (r: int)
    ensures r == -1 || (from <= r && OccursAt(s, pat, r))
    ensures forall i: nat :: from <= i && (r == -1 || i < r) ==> !OccursAt(s, pat, i)
    decreases |s| - from
  {
    if from + |pat| > |s| then -1
    else if OccursAt(s, pat, from) then from
    else IndexOf(s, pat, from + 1)
  }

  /** The guard of `definePropertyMetadata`: `" " + key + " "` occurs in the reserved list. */
  predicate IsReservedKey(key: string) {
    IndexOf(IgnoreProperty, " " + key + " ", 0) >= 0
  }

  /** An occurrence found index by index. */
  lemma OccursPointwise(s: string, pat: string, i: nat)
    requires i + |pat| <= |s|
    requires forall j :: 0 <= j < |pat| ==> s[i + j] == pat[j]
    ensures OccursAt(s, pat, i)
  {
    assert s[i..i + |pat|] == pat;
  }

  /** Any occurrence makes `indexOf` non-negative. */
  lemma ReservedAt(key: string, i: nat)
    requires OccursAt(IgnoreProperty, " " + key + " ", i)
    ensures IsReservedKey(key)
  {
  }

  /** A word sitting between two spaces of `s` at index i makes `" " + word + " "` occur there. */
  lemma OccursBetweenSpaces(s: string, word: string, i: nat)
    requires i + |word| + 2 <= |s|
    requires s[i] == ' ' && s[i + |word| + 1] == ' '
    requires forall j :: 0 <= j < |word| ==> s[i + 1 + j] == word[j]
    ensures OccursAt(s, " " + word + " ", i)
  {
    var p := " " + word + " ";
    forall j | 0 <= j < |p| ensures s[i + j] == p[j] {
      if 0 < j <= |word| {
        assert s[i + 1 + (j - 1)] == word[j - 1];
      }
    }
    OccursPointwise(s, p, i);
  }

  /** A name sitting between two spaces of the reserved list at index i is reserved. */
  lemma ReservedBetweenSpaces(key: string, i: nat)
    requires i + |key| + 2 <= |IgnoreProperty|
    requires IgnoreProperty[i] == ' ' && IgnoreProperty[i + |key| + 1] == ' '
    requires forall j :: 0 <= j < |key| ==> IgnoreProperty[i + 1 + j] == key[j]
    ensures IsReservedKey(key)
  {
    OccursBetweenSpaces(IgnoreProperty, key, i);
    ReservedAt(key, i);
  }

  lemma IdReserved() ensures IsReservedKey("id") {
    ReservedBetweenSpaces("id", 0);
  }

  lemma KeyReserved() ensures IsReservedKey("key") {
    ReservedBetweenSpaces("key", 3);
  }

  lemma NullableReserved() ensures IsReservedKey("nullable") {
    ReservedBetweenSpaces("nullable", 7);
  }

  lemma NullableItemReserved() ensures IsReservedKey("nullableItem") {
    ReservedBetweenSpaces("nullableItem", 16);
  }

  lemma DefaultReserved() ensures IsReservedKey("default") {
    ReservedBetweenSpaces("default", 29);
  }

  lemma TypeReserved() ensures IsReservedKey("type") {
    ReservedBetweenSpaces("type", 37);
  }

  /**
   * Every slice of the reserved list lying between two of its spaces is
   * reserved: a run of neighbouring names, in list order and joined by single
   * spaces ("key nullable"), is rejected as well as a single name.
   */
  lemma RunOfNamesReserved(i: nat, e: nat)
    requires i < e < |IgnoreProperty|
    requires IgnoreProperty[i] == ' ' && IgnoreProperty[e] == ' '
    ensures IsReservedKey(IgnoreProperty[i + 1..e])
  {
    ReservedBetweenSpaces(IgnoreProperty[i + 1..e], i);
  }

  /** Each of the six structural names is reserved. */
  lemma StructuralNamesReserved()
    ensures forall k :: k in ReservedNames ==> IsReservedKey(k)
  {
    forall k | k in ReservedNames ensures IsReservedKey(k) {
      if k == "id" { IdReserved(); }
      else if k == "key" { KeyReserved(); }
      else if k == "nullable" { NullableReserved(); }
      else if k == "nullableItem" { NullableItemReserved(); }
      else if k == "default" { DefaultReserved(); }
      else { TypeReserved(); }
    }
  }

  /** The reserved list has no letter 's'. */
  lemma NoLetterS()
    ensures forall j :: 0 <= j < |IgnoreProperty| ==> IgnoreProperty[j] != 's'
  {
  }

  /** A key containing the letter 's' is never reserved. */
  lemma KeyWithLetterSNotReserved(k: string, j: nat)
    requires j < |k| && k[j] == 's'
    ensures !IsReservedKey(k)
  {
    var r := IndexOf(IgnoreProperty, " " + k + " ", 0);
    if r >= 0 {
      Delimited(IgnoreProperty, k, r);
      assert IgnoreProperty[r + 1 + j] == 's';
      NoLetterS();
      assert false;
    }
  }

  /** `description` is not reserved: metadata may replace it. */
  lemma DescriptionNotReserved()
    ensures !IsReservedKey("description")
  {
    KeyWithLetterSNotReserved("description", 2);
  }

  /** The positions of the spaces in the reserved list. */
  lemma IgnorePropertySpaces()
    ensures forall j :: 0 <= j < |IgnoreProperty| ==> (IgnoreProperty[j] == ' ' <==> j in {0, 3, 7, 16, 29, 37, 42})
  {
  }

  /** An occurrence of `" " + k + " "` pins k between two spaces. */
  lemma Delimited(s: string, k: string, i: nat)
    requires OccursAt(s, " " + k + " ", i)
    ensures i + |k| + 1 < |s| && s[i] == ' ' && s[i + |k| + 1] == ' ' && s[i + 1..i + |k| + 1] == k
    ensures forall j :: 0 <= j < |k| ==> s[i + 1 + j] == k[j]
  {
    var p := " " + k + " ";
    assert s[i..i + |p|] == p;
    forall j | 0 <= j < |k| ensures s[i + 1 + j] == k[j] {
      assert s[i + 1 + j] == s[i..i + |p|][j + 1] == p[j + 1];
    }
    assert s[i] == s[i..i + |p|][0];
    assert s[i + |k| + 1] == s[i..i + |p|][|k| + 1];
  }

  /** An occurrence of a space-free key in the reserved list is one of the six names. */
  lemma WordAt(k: string, i: nat)
    requires forall j :: 0 <= j < |k| ==> k[j] != ' '
    requires OccursAt(IgnoreProperty, " " + k + " ", i)
    ensures k in ReservedNames
  {
    Delimited(IgnoreProperty, k, i);
    var e := i + |k| + 1;
    forall j | i < j < e ensures IgnoreProperty[j] != ' ' {
      assert IgnoreProperty[i + 1 + (j - i - 1)] == k[j - i - 1];
    }
    NeighbourSpaces(i, e);
    WordBetween(i, e);
  }

  /** The word between two neighbouring spaces of the reserved list is a structural name. */
  lemma WordBetween(i: nat, e: nat)
    requires (i == 0 && e == 3) || (i == 3 && e == 7) || (i == 7 && e == 16)
          || (i == 16 && e == 29) || (i == 29 && e == 37) || (i == 37 && e == 42)
    ensures IgnoreProperty[i + 1..e] in ReservedNames
  {
    if i == 0 { OccursPointwise(IgnoreProperty, "id", 1); }
    else if i == 3 { OccursPointwise(IgnoreProperty, "key", 4); }
    else if i == 7 { OccursPointwise(IgnoreProperty, "nullable", 8); }
    else if i == 16 { OccursPointwise(IgnoreProperty, "nullableItem", 17); }
    else if i == 29 { OccursPointwise(IgnoreProperty, "default", 30); }
    else { OccursPointwise(IgnoreProperty, "type", 38); }
  }

  /** Two spaces of the reserved list with none between them enclose one word. */
  lemma NeighbourSpaces(i: nat, e: nat)
    requires i < e < |IgnoreProperty|
    requires IgnoreProperty[i] == ' ' && IgnoreProperty[e] == ' '
    requires forall j :: i < j < e ==> IgnoreProperty[j] != ' '
    ensures (i == 0 && e == 3) || (i == 3 && e == 7) || (i == 7 && e == 16)
         || (i == 16 && e == 29) || (i == 29 && e == 37) || (i == 37 && e == 42)
  {
    IgnorePropertySpaces();
    assert IgnoreProperty[3] == IgnoreProperty[7] == IgnoreProperty[16] == ' ';
    assert IgnoreProperty[29] == IgnoreProperty[37] == IgnoreProperty[42] == ' ';
  }

  /** A key without spaces is reserved exactly when it is one of the six structural names. */
  lemma ReservedSingleWord(k: string)
    requires forall j :: 0 <= j < |k| ==> k[j] != ' '
    ensures IsReservedKey(k) <==> k in ReservedNames
  {
    StructuralNamesReserved();
    if IsReservedKey(k) {
      WordAt(k, IndexOf(IgnoreProperty, " " + k + " ", 0));
    }
  }

  /**
   * The validation hook `__validateMetadata.validate(Properties, property,
   * name, key, value)`: `Some(reason)` is the error it throws.
   */
  type Hook = (Value, Entry, string, string, Value) -> Option<string>

  /** The shipped hook: a `description` must be a string. */
  function DefaultValidate(target: Value, property: Entry, name: string, key: string, value: Value): (r: Option<string>)
    ensures r.Some? <==> key == "description" && !value.Str?
  {
    if key == "description" && !value.Str? then Some("The value for description must be a string") else None
  }

  /** `property[key] = value` on a table entry, for a key the guard let through. */
  function SetSlot(e: Entry, key: string, value: Value): (r: Entry)
    requires key !in ReservedNames
    ensures Slot(r, key) == Some(value)
    ensures forall k :: k != key ==> Slot(r, k) == Slot(e, k)
    ensures r.id == e.id && r.key == e.key && r.typ == e.typ
  {
    if key == "description" then e.(description := value) else e.(extra := e.extra[key := value])
  }

  /** The index loop of the metadata accessors: the first entry whose `key` is `name`. */
  function FindEntry(entries: seq<Entry>, name: string, from: nat): (r: Option<nat>)
    ensures r.Some? ==> from <= r.value < |entries| && entries[r.value].key == name
    ensures forall j :: from <= j < |entries| && (r.None? || j < r.value) ==> entries[j].key != name
    decreases |entries| - from
  {
    if from >= |entries| then None
    else if entries[from].key == name then Some(from)
    else FindEntry(entries, name, from + 1)
  }

  /** `getPropertyMetadata` on a table: the slot's own value; a missing field and a missing slot fail alike. */
  function MetadataOf(t: Table, name: string, key: string): (r: Result<Value>)
    ensures r.Err? ==> r.error == KeyNotFound(name)
    ensures r.Ok? ==> exists i :: 0 <= i < |t.entries| && t.entries[i].key == name && Slot(t.entries[i], key) == Some(r.value)
    ensures (forall i :: 0 <= i < |t.entries| ==> t.entries[i].key != name) ==> r.Err?
  {
    match FindEntry(t.entries, name, 0)
    case None => Err(KeyNotFound(name))
    case Some(i) =>
      match Slot(t.entries[i], key)
      case None => Err(KeyNotFound(name))
      case Some(v) => Ok(v)
  }

  /** `hasPropertyMetadata` on a table: the field exists and owns the slot. */
  function HasMetadataOf(t: Table, name: string, key: string): bool {
    match FindEntry(t.entries, name, 0)
    case None => false
    case Some(i) => Slot(t.entries[i], key).Some?
  }

  /** `hasPropertyMetadata` holds exactly when `getPropertyMetadata` would return instead of throwing. */
  lemma HasIffGet(t: Table, name: string, key: string)
    ensures HasMetadataOf(t, name, key) <==> MetadataOf(t, name, key).Ok?
  {
  }

  /** Every entry owns a `description` slot, so it is reported present for every field. */
  lemma DescriptionAlwaysPresent(t: Table, i: nat)
    requires i < |t.entries|
    ensures HasMetadataOf(t, t.entries[i].key, "description")
    ensures MetadataOf(t, t.entries[i].key, "description").Ok?
  {
    var j := FindEntry(t.entries, t.entries[i].key, 0);
    assert j.Some?;
  }

  /** Every table of a registry is ordinal-indexed. */
  predicate ValidTables(tables: map<nat, Table>) {
    forall c :: c in tables ==> ValidTable(tables[c])
  }

  /**
   * `definePropertyMetadata(Properties, name, key, value)` on the registry of
   * attached tables: the reserved-key check comes first (even for an
   * undecorated target), then the lookup of the table, then the search for
   * the field, then the hook, then the write.
   */
  function Define(tables: map<nat, Table>, hook: Hook, target: Value, name: string, key: string, value: Value): Result<map<nat, Table>> {
    if IsReservedKey(key) then Err(CannotReplaceKey(key))
    else if !(target.Fn? && target.fid in tables) then Err(NotDecorated)
    else
      var t := tables[target.fid];
      match FindEntry(t.entries, name, 0)
      case None => Err(KeyNotFound(name))
      case Some(i) =>
        match hook(target, t.entries[i], name, key, value)
        case Some(reason) => Err(Rejected(reason))
        case None =>
          StructuralNamesReserved();
          Ok(tables[target.fid := t.(entries := t.entries[i := SetSlot(t.entries[i], key, value)])])
  }

  /**
   * A successful write changes one slot of one entry of one table: the first
   * entry named `name` now owns `key` with `value`, every other slot, entry
   * and table is as before, and the key map is untouched.
   */
  lemma DefineWritesOneSlot(tables: map<nat, Table>, hook: Hook, target: Value, name: string, key: string, value: Value)
    requires Define(tables, hook, target, name, key, value).Ok?
    ensures var after := Define(tables, hook, target, name, key, value).value;
      && target.Fn? && target.fid in tables && after.Keys == tables.Keys
      && (forall c :: c in tables && c != target.fid ==> after[c] == tables[c])
      && var t, t' := tables[target.fid], after[target.fid];
      && t'.keyMap == t.keyMap && |t'.entries| == |t.entries|
      && (exists i :: 0 <= i < |t.entries| && t.entries[i].key == name)
      && (forall j :: 0 <= j < |t.entries| && t.entries[j].key != name ==> t'.entries[j] == t.entries[j])
      && (forall j :: 0 <= j < |t.entries| ==> t'.entries[j].key == t.entries[j].key && t'.entries[j].id == t.entries[j].id)
      && (forall j, k :: 0 <= j < |t.entries| && k != key ==> Slot(t'.entries[j], k) == Slot(t.entries[j], k))
  {
    var t := tables[target.fid];
    var i := FindEntry(t.entries, name, 0).value;
    StructuralNamesReserved();
    var t' := Define(tables, hook, target, name, key, value).value[target.fid];
    forall j, k | 0 <= j < |t.entries| && k != key ensures Slot(t'.entries[j], k) == Slot(t.entries[j], k) {
      if j == i {
        assert t'.entries[j] == SetSlot(t.entries[i], key, value);
      }
    }
  }

  /** Writing then reading the same slot returns the written value. */
  lemma DefineThenGet(tables: map<nat, Table>, hook: Hook, target: Value, name: string, key: string, value: Value)
    requires Define(tables, hook, target, name, key, value).Ok?
    ensures var after := Define(tables, hook, target, name, key, value).value;
      target.Fn? && target.fid in after && MetadataOf(after[target.fid], name, key) == Ok(value)
  {
    var t := tables[target.fid];
    var i := FindEntry(t.entries, name, 0).value;
    StructuralNamesReserved();
    var t' := Define(tables, hook, target, name, key, value).value[target.fid];
    assert forall j :: 0 <= j < |t.entries| ==> t'.entries[j].key == t.entries[j].key;
    assert FindEntry(t'.entries, name, 0) == Some(i);
  }

  /** A write keeps every table ordinal-indexed. */
  lemma DefineKeepsValid(tables: map<nat, Table>, hook: Hook, target: Value, name: string, key: string, value: Value)
    requires ValidTables(tables)
    requires Define(tables, hook, target, name, key, value).Ok?
    ensures ValidTables(Define(tables, hook, target, name, key, value).value)
  {
    DefineWritesOneSlot(tables, hook, target, name, key, value);
  }

  /** With the shipped hook, a non-string description for an existing field is refused and nothing is written. */
  lemma DefaultHookRejectsDescription(tables: map<nat, Table>, c: nat, name: string, value: Value)
    requires c in tables && !value.Str?
    requires exists i :: 0 <= i < |tables[c].entries| && tables[c].entries[i].key == name
    ensures Define(tables, DefaultValidate, Fn(c), name, "description", value) ==
      Err(Rejected("The value for description must be a string"))
  {
    DescriptionNotReserved();
    var i :| 0 <= i < |tables[c].entries| && tables[c].entries[i].key == name;
    assert FindEntry(tables[c].entries, name, 0).Some?;
  }

  /** A field name no entry carries fails with "Property key <name> was not found". */
  lemma DefineUnknownName(tables: map<nat, Table>, hook: Hook, c: nat, name: string, key: string, value: Value)
    requires c in tables && !IsReservedKey(key)
    requires forall i :: 0 <= i < |tables[c].entries| ==> tables[c].entries[i].key != name
    ensures Define(tables, hook, Fn(c), name, key, value) == Err(KeyNotFound(name))
  {
    assert FindEntry(tables[c].entries, name, 0).None?;
  }

  /** A schema with no fields registers as the empty table `{ keyMap: {}, length: 0 }`. */
  lemma EmptySchemaTable(tid: nat, inherited: seq<seq<string>>)
    ensures Compute(Target(tid, Schema([], inherited), true)) == Ok(Table([], map[]))
  {
    var s := Schema([], inherited);
    assert Run([], s.decls).fields == [];
    BindSpec([], BindingNames(s), Holds(s.decls));
    assert Bind([], BindingNames(s), Holds(s.decls)) == Ok([]);
    assert FirstUnboundFrom([], 0).None? && FirstHoleFrom([], 0).None?;
    assert EntriesOf([]) == [];
  }

  /**
   * The attached tables (`target[$properties$]`, keyed by the class's
   * function identity) and the replaceable validation hook.
   */
  class Registry {
    var tables: map<nat, Table>
    var validate: Hook

    /** No class decorated yet; the shipped hook installed. */
    constructor ()
      ensures tables == map[] && validate == DefaultValidate
    {
      tables := map[];
      validate := DefaultValidate;
    }

    predicate Valid()
      reads this
    {
      ValidTables(tables)
    }

    /** `getProperties(target)`: the attached table, or "Not decorated by Properties" for null or an undecorated value. */
    function GetProperties(target: Value): (r: Result<Table>)
      reads this
      ensures r.Ok? <==> target.Fn? && target.fid in tables
      ensures r.Ok? ==> r.value == tables[target.fid]
      ensures r.Err? ==> r.error == NotDecorated
    {
      if target.Fn? && target.fid in tables then Ok(tables[target.fid]) else Err(NotDecorated)
    }

    /** `isProperties(value)`: a table is attached. */
    function IsProperties(v: Value): (r: bool)
      reads this
      ensures r <==> GetProperties(v).Ok?
    {
      v.Fn? && v.fid in tables
    }

    /** `hasProperty(target, key)`: membership in the key map, after the decoration check. */
    function HasProperty(target: Value, key: string): (r: Result<bool>)
      reads this
      ensures r.Err? <==> GetProperties(target).Err?
      ensures r.Ok? ==> (r.value <==> key in GetProperties(target).value.keyMap)
    {
      var t :- GetProperties(target);
      Ok(key in t.keyMap)
    }

    /**
     * `getProperty(target, key)`: `table[keyMap[key]]`, which is the entry
     * named `key`; "Property <key> is not a property like" when the key map
     * lacks it.
     */
    function GetProperty(target: Value, key: string): (r: Result<Entry>)
      reads this
      requires Valid()
      ensures r.Ok? <==> HasProperty(target, key) == Ok(true)
      ensures r.Ok? ==> r.value.key == key && r.value in GetProperties(target).value.entries
      ensures r.Err? ==> r.error == if GetProperties(target).Err? then NotDecorated else NotAPropertyLike(key)
    {
      var t :- GetProperties(target);
      if key !in t.keyMap then Err(NotAPropertyLike(key)) else Ok(t.entries[t.keyMap[key]])
    }

    /**
     * The table attachment of `@Properties()`: registration runs on a freshly
     * allocated closure, so the registry's cache never answers it; a table is
     * attached only on success, and attaching over an existing own table is
     * refused as a redefinition of a read-only slot.
     */
    method Decorate(rec: Recorder, closure: nat, cid: nat, schema: Schema) returns (r: Result<Table>)
      requires Valid()
      requires closure !in rec.cache
      modifies this`tables, rec
      ensures Valid()
      ensures var c := Compute(Target(closure, schema, true));
        && r == (if c.Ok? && cid in old(tables) then Err(TypeError("Cannot redefine property")) else c)
        && tables == (if r.Ok? then old(tables)[cid := r.value] else old(tables))
        && rec.cache == (if c.Ok? then old(rec.cache)[closure := c.value] else old(rec.cache))
        && rec.emit == Run([], schema.decls).fault.Some?
    {
      var target := Target(closure, schema, true);
      r := rec.ComputeProperties(target);
      if r.Err? {
        return;
      }
      if cid in tables {
        return Err(TypeError("Cannot redefine property"));
      }
      ComputeOk(target);
      tables := tables[cid := r.value];
    }

    /** `definePropertyMetadata`, with the index loop over the entries and the in-place write. */
    method DefineMetadata(target: Value, name: string, key: string, value: Value) returns (r: Result<()>)
      requires Valid()
      modifies this`tables
      ensures Valid()
      ensures var d := Define(old(tables), validate, target, name, key, value);
        && (d.Ok? ==> r == Ok(()) && tables == d.value)
        && (d.Err? ==> r == Err(d.error) && tables == old(tables))
    {
      if IndexOf(IgnoreProperty, " " + key + " ", 0) >= 0 {
        return Err(CannotReplaceKey(key));
      }
      var properties := GetProperties(target);
      if properties.Err? {
        return Err(properties.error);
      }
      var t := properties.value;
      var i := 0;
      while i < |t.entries|
        invariant 0 <= i <= |t.entries|
        invariant FindEntry(t.entries, name, i) == FindEntry(t.entries, name, 0)
      {
        var property := t.entries[i];
        if property.key == name {
          var reason := validate(target, property, name, key, value);
          if reason.Some? {
            return Err(Rejected(reason.value));
          }
          StructuralNamesReserved();
          ghost var before := tables;
          tables := tables[target.fid := t.(entries := t.entries[i := SetSlot(property, key, value)])];
          DefineKeepsValid(before, validate, target, name, key, value);
          return Ok(());
        }
        i := i + 1;
      }
      return Err(KeyNotFound(name));
    }

    /** `getPropertyMetadata`: the search loop that stops at the first entry named `name`. */
    method GetMetadata(target: Value, name: string, key: string) returns (r: Result<Value>)
      ensures r == match GetProperties(target) case Err(e) => Err(e) case Ok(t) => MetadataOf(t, name, key)
    {
      var properties := GetProperties(target);
      if properties.Err? {
        return Err(properties.error);
      }
      var t := properties.value;
      var i := 0;
      while i < |t.entries|
        invariant 0 <= i <= |t.entries|
        invariant FindEntry(t.entries, name, i) == FindEntry(t.entries, name, 0)
      {
        var property := t.entries[i];
        if property.key == name {
          var slot := Slot(property, key);
          if slot.Some? {
            return Ok(slot.value);
          }
          break;
        }
        i := i + 1;
      }
      return Err(KeyNotFound(name));
    }

    /** `hasPropertyMetadata`: false, not a throw, for an unknown field; only an undecorated target throws. */
    method HasMetadata(target: Value, name: string, key: string) returns (r: Result<bool>)
      ensures r.Err? <==> GetProperties(target).Err?
      ensures r.Err? ==> r.error == NotDecorated
      ensures r.Ok? ==> (r.value <==> HasMetadataOf(GetProperties(target).value, name, key))
    {
      var properties := GetProperties(target);
      if properties.Err? {
        return Err(properties.error);
      }
      var t := properties.value;
      var i := 0;
      while i < |t.entries|
        invariant 0 <= i <= |t.entries|
        invariant FindEntry(t.entries, name, i) == FindEntry(t.entries, name, 0)
      {
        var property := t.entries[i];
        if property.key == name {
          if Slot(property, key).Some? {
            return Ok(true);
          }
          break;
        }
        i := i + 1;
      }
      return Ok(false);
    }
  }
}
