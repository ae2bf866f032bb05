/**
 * The reversible-enumeration detector `isEnum`: a value is an enumeration
 * when it is a plain object and every own key k satisfies
 * `value[value[k]] == k` under loose equality, as a TypeScript numeric enum
 * does with its name-to-number and number-to-name entries.
 */
module Utils {
  import opened Wrappers
  import opened Js

  /** Own key `k` maps back to itself through its value: `members[members[k]] == k`. */
  predicate Reverses(members: map<string, Value>, k: string)
    requires k in members
  {
    match PropertyKey(members[k])
    case None => false
    case Some(back) => back in members && LooseEqualsString(members[back], k)
  }

  /** `isEnum` on an object given by its prototype test and its own properties. */
  predicate IsEnumObject(plain: bool, members: map<string, Value>) {
    plain && forall k :: k in members ==> Reverses(members, k)
  }

  /** `isEnum(value)`. */
  predicate IsEnum(v: Value) {
    v.Obj? && IsEnumObject(v.plain, v.props)
  }

  /** `isEnum` on a type descriptor: only a plain non-function object can qualify. */
  predicate IsEnumType(t: TypeDesc) {
    t.ObjectType? && IsEnumObject(t.plain, t.members)
  }

  /** `type[value]` on an object type: the member keyed by the value, undefined when absent. */
  function EnumLookup(members: map<string, Value>, v: Value): (r: Value)
    ensures r != Undefined ==> exists k :: k in members && members[k] == r
  {
    match PropertyKey(v)
    case None => Undefined
    case Some(k) => Get(members, k)
  }

  /** Non-objects and null are never enumerations. */
  lemma NonObjectIsNotEnum(v: Value)
    requires !v.Obj?
    ensures !IsEnum(v)
  {
  }

  /** An object whose prototype is not the plain-object prototype is never an enumeration. */
  lemma ForeignPrototypeIsNotEnum(v: Value)
    requires v.Obj? && !v.plain
    ensures !IsEnum(v)
  {
  }

  /** One own key that does not map back to itself is enough to reject, and only that rejects a plain object. */
  lemma EnumIffEveryKeyReverses(v: Value)
    requires v.Obj? && v.plain
    ensures !IsEnum(v) <==> exists k :: k in v.props && !Reverses(v.props, k)
  {
  }

  /** The empty plain object is an enumeration. */
  lemma EmptyObjectIsEnum(oid: nat, members: set<string>)
    ensures IsEnum(Obj(oid, members, true, map[]))
  {
  }

  /** The compiled form of `enum UserStatus { ACTIVE = 1, INACTIVE = 2 }`. */
  function UserStatus(): map<string, Value> {
    map["ACTIVE" := Num(1), "INACTIVE" := Num(2), "1" := Str("ACTIVE"), "2" := Str("INACTIVE")]
  }

  /** A reverse-mapped numeric enum qualifies. */
  lemma NumericEnumIsEnum()
    ensures IsEnumObject(true, UserStatus())
  {
    var m := UserStatus();
    assert IntToString(1) == "1" && IntToString(2) == "2";
    forall k | k in m ensures Reverses(m, k) {
      if k == "ACTIVE" {
        assert m[k] == Num(1);
      } else if k == "INACTIVE" {
        assert m[k] == Num(2);
      }
    }
  }

  /**
   * In an enumeration, a number whose key names a member that maps back to a
   * number gets that same number back: `E[E[n]] == n`.
   */
  lemma {:induction false} EnumNumberRoundTrip(members: map<string, Value>, n: int)
    requires IsEnumObject(true, members)
    requires IntToString(n) in members && members[IntToString(n)].Str?
    requires members[members[IntToString(n)].s].Num?
    ensures EnumLookup(members, EnumLookup(members, Num(n))) == Num(n)
  {
    var key := IntToString(n);
    var name := members[key].s;
    assert Reverses(members, key);
    assert name in members;
    var m := members[name].n;
    assert LooseEqualsString(members[name], key);
    IntToStringInjective(m, n);
  }
}
