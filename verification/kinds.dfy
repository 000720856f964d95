/**
 * The schema constructors of the OpenAPI kinds: `Nullable`, `Nullish`,
 * `LiteralEnum` and `StringEnum`, the two experimental kinds `UnionOneOf`
 * and `UnionEnum` with their checks, and the type registry those kinds add
 * their checks to.
 */
module Kinds {
  import opened Schemas
  import Downgrade

  // ---------------------------------------------------------------------------
  // TypeBox builders the constructors call

  /** `Type.Null()` */
  const NullSchema: Schema := Null(map[])

  /** `Type.Union([a, b])` without options. */
  function Union2(a: Schema, b: Schema): (r: Schema)
    ensures r.Union? && r.anyOf == [a, b] && r.attrs == map[]
  {
    Union([a, b], map[])
  }

  /**
   * `Type.Literal(value, options)`: the options, with the Kind, `const` and
   * `type: typeof value` set by the builder over them.
   */
  function LiteralOf(value: Lit, options: Attrs): (r: Schema)
    ensures r.Literal? && r.value == value
    ensures ConstKey !in r.attrs && KindKey !in r.attrs
    ensures TypeKey in r.attrs && r.attrs[TypeKey] == VStr(TypeOfLit(value))
    ensures forall k | k in options && k != ConstKey && k != KindKey && k != TypeKey :: k in r.attrs && r.attrs[k] == options[k]
  {
    Literal(value, (options - {ConstKey, KindKey})[TypeKey := VStr(TypeOfLit(value))])
  }

  // ---------------------------------------------------------------------------
  // utility.ts

  /** `Type.Union([schema, Type.Null()])` */
  function Nullable(s: Schema): (r: Schema)
    ensures Downgrade.IsNullableUnion(r) && r.anyOf[0] == s && r.anyOf[1] == NullSchema
    ensures r.attrs == map[]
  {
    Union2(s, NullSchema)
  }

  /** `Type.Optional(Type.Union([schema, Type.Null()]))`: the same union, with the Optional modifier. */
  function Nullish(s: Schema): (r: Schema)
    ensures Downgrade.IsNullableUnion(r) && r.anyOf[0] == s && r.anyOf[1] == NullSchema
    ensures r.attrs == map[OptionalKey := VStr("Optional")]
  {
    Union([s, NullSchema], map[OptionalKey := VStr("Optional")])
  }

  /** Downgrading a Nullable schema gives the schema itself with `nullable: true`. */
  lemma NullableDowngrades(s: Schema)
    requires !s.Null?
    ensures Downgrade.Downgrade(Nullable(s)) == WithNullable(s)
  {
    Downgrade.NullableUnionCollapses(s, NullSchema, map[]);
  }

  /**
   * Downgrading a Nullish schema gives the same as downgrading the Nullable
   * one: the Optional modifier sits on the union node and does not survive.
   */
  lemma NullishDowngrades(s: Schema)
    requires !s.Null?
    ensures Downgrade.Downgrade(Nullish(s)) == Downgrade.Downgrade(Nullable(s)) == WithNullable(s)
    ensures OptionalKey in Nullish(s).attrs && OptionalKey !in Downgrade.Downgrade(Nullish(s)).attrs <==> OptionalKey !in s.attrs
  {
    Downgrade.NullableUnionCollapses(s, NullSchema, map[OptionalKey := VStr("Optional")]);
    Downgrade.NullableUnionCollapses(s, NullSchema, map[]);
  }

  /**
   * LiteralEnum: a literal carrying `type` and `enum: [value]`, with the
   * caller's options spread last; the builder still sets `type` from the value.
   */
  function LiteralEnum(value: Lit, options: Attrs): (r: Schema)
    ensures r.Literal? && r.value == value
    ensures r.attrs.Keys == options.Keys - {ConstKey, KindKey} + {TypeKey, EnumKey}
    ensures r.attrs[TypeKey] == VStr(TypeOfLit(value))
    ensures r.attrs[EnumKey] == if EnumKey in options then options[EnumKey] else VList([LitValue(value)])
    ensures forall k | k in options && k != ConstKey && k != KindKey && k != TypeKey :: r.attrs[k] == options[k]
  {
    match value
    case LBool(b) => LiteralOf(value, map[TypeKey := VStr("boolean"), EnumKey := VList([VBool(b)])] + options)
    case LNum(n) => LiteralOf(value, map[TypeKey := VStr("number"), EnumKey := VList([VNum(n)])] + options)
    case LStr(s) => LiteralOf(value, map[TypeKey := VStr("string"), EnumKey := VList([VStr(s)])] + options)
  }

  /** The values built for a boolean, a number and a string, without options. */
  lemma LiteralEnumExamples()
    ensures LiteralEnum(LBool(true), map[]) == Literal(LBool(true), map[TypeKey := VStr("boolean"), EnumKey := VList([VBool(true)])])
    ensures LiteralEnum(LNum(42), map[]) == Literal(LNum(42), map[TypeKey := VStr("number"), EnumKey := VList([VNum(42)])])
    ensures LiteralEnum(LStr("test"), map[]) == Literal(LStr("test"), map[TypeKey := VStr("string"), EnumKey := VList([VStr("test")])])
  {
    var m := map[TypeKey := VStr("boolean"), EnumKey := VList([VBool(true)])];
    assert LiteralEnum(LBool(true), map[]).attrs == m;
    var n := map[TypeKey := VStr("number"), EnumKey := VList([VNum(42)])];
    assert LiteralEnum(LNum(42), map[]).attrs == n;
    var t := map[TypeKey := VStr("string"), EnumKey := VList([VStr("test")])];
    assert LiteralEnum(LStr("test"), map[]).attrs == t;
  }

  /** A description passed as option is kept beside `type` and `enum`. */
  lemma LiteralEnumKeepsDescription()
    ensures LiteralEnum(LStr("test"), map[DescriptionKey := VStr("A test string")])
            == Literal(LStr("test"), map[TypeKey := VStr("string"), EnumKey := VList([VStr("test")]),
                                         DescriptionKey := VStr("A test string")])
  {
    var m := map[TypeKey := VStr("string"), EnumKey := VList([VStr("test")]), DescriptionKey := VStr("A test string")];
    var r := LiteralEnum(LStr("test"), map[DescriptionKey := VStr("A test string")]);
    assert r.attrs.Keys == m.Keys;
    assert r.attrs == m;
  }

  /** Options that leave `enum` alone or replace it with a truthy value. */
  predicate KeepsEnum(options: Attrs) {
    EnumKey in options ==> Truthy(Some(options[EnumKey]))
  }

  /**
   * A LiteralEnum already has what the downgrade would add, so the downgrade
   * leaves it as it is; with a falsy `enum` option it does not.
   */
  lemma LiteralEnumIsDowngraded(value: Lit, options: Attrs)
    ensures KeepsEnum(options) <==> !Downgrade.ShouldDowngrade(LiteralEnum(value, options))
    ensures KeepsEnum(options) ==> Downgrade.Downgrade(LiteralEnum(value, options)) == LiteralEnum(value, options)
  {
    var r := LiteralEnum(value, options);
    assert Truthy(Some(r.attrs[TypeKey]));
    assert Downgrade.HasTypeAndEnum(r) <==> KeepsEnum(options);
  }

  /**
   * Downgrading `Type.Literal(value, options)` gives `LiteralEnum(value,
   * options)`, unless the options set a falsy `enum`.
   */
  lemma DowngradedLiteralIsLiteralEnum(value: Lit, options: Attrs)
    requires KeepsEnum(options)
    ensures Downgrade.Downgrade(LiteralOf(value, options)) == LiteralEnum(value, options)
  {
    var s := LiteralOf(value, options);
    var d := Downgrade.Downgrade(s);
    var r := LiteralEnum(value, options);
    if EnumKey in options {
      assert Downgrade.HasTypeAndEnum(s);
      assert d == s;
    } else {
      assert !Downgrade.HasTypeAndEnum(s);
    }
    assert d.attrs.Keys == r.attrs.Keys;
    assert d.attrs == r.attrs;
  }

  // ---------------------------------------------------------------------------
  // experimental.ts: the schemas

  /** `{ ...options, [Kind]: "UnionEnum", enum: values }` */
  function UnionEnumSchema(values: seq<EnumValue>, options: Attrs): (r: Schema)
    ensures r.UnionEnum? && r.enum == values
    ensures r.attrs.Keys == options.Keys - {EnumKey, KindKey}
    ensures forall k | k in r.attrs :: r.attrs[k] == options[k]
  {
    UnionEnum(values, options - {EnumKey, KindKey})
  }

  /** `{ ...options, [Kind]: "UnionOneOf", oneOf }` */
  function UnionOneOfSchema(oneOf: seq<Schema>, options: Attrs): (r: Schema)
    ensures r.UnionOneOf? && r.oneOf == oneOf
    ensures r.attrs.Keys == options.Keys - {OneOfKey, KindKey}
    ensures forall k | k in r.attrs :: r.attrs[k] == options[k]
  {
    UnionOneOf(oneOf, options - {OneOfKey, KindKey})
  }

  /** StringEnum: a UnionEnum of the strings with `type: "string"` unless the options say otherwise. */
  function StringEnumSchema(values: seq<string>, options: Attrs): (r: Schema)
    ensures r.UnionEnum? && |r.enum| == |values|
    ensures forall i | 0 <= i < |values| :: r.enum[i] == EStr(values[i])
    ensures TypeKey in r.attrs && r.attrs[TypeKey] == if TypeKey in options then options[TypeKey] else VStr("string")
  {
    UnionEnumSchema(seq(|values|, i requires 0 <= i < |values| => EStr(values[i])), map[TypeKey := VStr("string")] + options)
  }

  // ---------------------------------------------------------------------------
  // experimental.ts: the checks

  /** UnionEnumCheck: a string or a number that is one of the enum values. */
  predicate UnionEnumCheck(s: Schema, v: Value): (b: bool)
    requires s.UnionEnum?
    ensures b <==> (v.VStr? && EStr(v.s) in s.enum) || (v.VNum? && ENum(v.n) in s.enum)
  {
    (v.VStr? || v.VNum?) && exists i | 0 <= i < |s.enum| :: EnumValueOf(s.enum[i]) == v
  }

  /** A StringEnum accepts exactly its strings. */
  lemma StringEnumAccepts(values: seq<string>, options: Attrs, v: Value)
    ensures UnionEnumCheck(StringEnumSchema(values, options), v) <==> v.VStr? && v.s in values
  {
    var s := StringEnumSchema(values, options);
    if v.VStr? && v.s in values {
      var i :| 0 <= i < |values| && values[i] == v.s;
      assert EnumValueOf(s.enum[i]) == v;
    }
  }

  /** Every enum value is accepted; booleans, null, arrays and objects never are. */
  lemma UnionEnumAcceptsItsValues(values: seq<EnumValue>, options: Attrs, v: Value)
    ensures forall i | 0 <= i < |values| :: UnionEnumCheck(UnionEnumSchema(values, options), EnumValueOf(values[i]))
    ensures v.VBool? || v.VNull? || v.VList? || v.VObject? ==> !UnionEnumCheck(UnionEnumSchema(values, options), v)
  {
    var s := UnionEnumSchema(values, options);
    forall i | 0 <= i < |values| ensures UnionEnumCheck(s, EnumValueOf(values[i])) {
      assert EnumValueOf(s.enum[i]) == EnumValueOf(values[i]);
    }
  }

  /** `oneOf.reduce((acc, schema) => check(schema, value) ? acc + 1 : acc, 0)` */
  function CountAccepting(oneOf: seq<Schema>, v: Value, check: (Schema, Value) -> bool): (c: nat)
    ensures c <= |oneOf|
  {
    if oneOf == [] then 0
    else CountAccepting(oneOf[..|oneOf| - 1], v, check) + if check(oneOf[|oneOf| - 1], v) then 1 else 0
  }

  /** UnionOneOfCheck, with `Value.Check` passed in as `check`. */
  predicate UnionOneOfCheck(s: Schema, v: Value, check: (Schema, Value) -> bool): (b: bool)
    requires s.UnionOneOf?
    ensures b ==> 0 < |s.oneOf|
  {
    CountAccepting(s.oneOf, v, check) == 1
  }

  /** Exactly one member accepts the value. */
  ghost predicate ExactlyOneAccepts(oneOf: seq<Schema>, v: Value, check: (Schema, Value) -> bool) {
    exists i | 0 <= i < |oneOf| :: check(oneOf[i], v) && forall j | 0 <= j < |oneOf| && j != i :: !check(oneOf[j], v)
  }

  /** No member accepts the value exactly when the count is zero. */
  lemma {:induction false} CountZero(oneOf: seq<Schema>, v: Value, check: (Schema, Value) -> bool)
    ensures CountAccepting(oneOf, v, check) == 0 <==> forall i | 0 <= i < |oneOf| :: !check(oneOf[i], v)
  {
    if oneOf != [] {
      var init := oneOf[..|oneOf| - 1];
      CountZero(init, v, check);
      assert forall i | 0 <= i < |init| :: init[i] == oneOf[i];
    }
  }

  /** A count of one means a single accepting member. */
  lemma {:induction false} CountOneHasWitness(oneOf: seq<Schema>, v: Value, check: (Schema, Value) -> bool)
    requires CountAccepting(oneOf, v, check) == 1
    ensures ExactlyOneAccepts(oneOf, v, check)
  {
    var n := |oneOf| - 1;
    var init := oneOf[..n];
    assert forall i | 0 <= i < n :: init[i] == oneOf[i];
    if check(oneOf[n], v) {
      CountZero(init, v, check);
      assert forall j | 0 <= j < |oneOf| && j != n :: !check(oneOf[j], v);
    } else {
      CountOneHasWitness(init, v, check);
      var i :| 0 <= i < n && check(init[i], v) && forall j | 0 <= j < n && j != i :: !check(init[j], v);
      assert forall j | 0 <= j < |oneOf| && j != i :: !check(oneOf[j], v);
    }
  }

  /** A single accepting member means a count of one. */
  lemma {:induction false} WitnessCountsOne(oneOf: seq<Schema>, v: Value, check: (Schema, Value) -> bool, i: nat)
    requires i < |oneOf| && check(oneOf[i], v) && forall j | 0 <= j < |oneOf| && j != i :: !check(oneOf[j], v)
    ensures CountAccepting(oneOf, v, check) == 1
  {
    var n := |oneOf| - 1;
    var init := oneOf[..n];
    assert forall j | 0 <= j < n :: init[j] == oneOf[j];
    if i == n {
      CountZero(init, v, check);
    } else {
      WitnessCountsOne(init, v, check, i);
    }
  }

  lemma CountOne(oneOf: seq<Schema>, v: Value, check: (Schema, Value) -> bool)
    ensures CountAccepting(oneOf, v, check) == 1 <==> ExactlyOneAccepts(oneOf, v, check)
  {
    if CountAccepting(oneOf, v, check) == 1 {
      CountOneHasWitness(oneOf, v, check);
    }
    if ExactlyOneAccepts(oneOf, v, check) {
      var i :| 0 <= i < |oneOf| && check(oneOf[i], v) && forall j | 0 <= j < |oneOf| && j != i :: !check(oneOf[j], v);
      WitnessCountsOne(oneOf, v, check, i);
    }
  }

  /** A UnionOneOf accepts a value exactly when one and only one of its members does. */
  lemma UnionOneOfAcceptsExactlyOne(oneOf: seq<Schema>, options: Attrs, v: Value, check: (Schema, Value) -> bool)
    ensures UnionOneOfCheck(UnionOneOfSchema(oneOf, options), v, check) <==> ExactlyOneAccepts(oneOf, v, check)
  {
    CountOne(oneOf, v, check);
  }

  // ---------------------------------------------------------------------------
  // The type registry

  /** The check registered under a kind name: one of the two above, or a check from elsewhere. */
  datatype RegisteredCheck = OneOfRule | EnumRule | OtherRule(origin: string)

  /** `if (!TypeRegistry.Has(kind)) TypeRegistry.Set(kind, check)` */
  function RegisterIfAbsent(checks: map<string, RegisteredCheck>, kind: string, check: RegisteredCheck): (r: map<string, RegisteredCheck>)
    ensures kind in r && r[kind] == if kind in checks then checks[kind] else check
    ensures r.Keys == checks.Keys + {kind}
    ensures forall k | k in checks :: r[k] == checks[k]
  {
    if kind in checks then checks else checks[kind := check]
  }

  /** Registering again changes nothing, whatever check is offered: the first registration wins. */
  lemma RegisterIfAbsentIdempotent(checks: map<string, RegisteredCheck>, kind: string, c1: RegisteredCheck, c2: RegisteredCheck)
    ensures RegisterIfAbsent(RegisterIfAbsent(checks, kind, c1), kind, c2) == RegisterIfAbsent(checks, kind, c1)
  {
  }

  /** TypeBox's TypeRegistry, as far as the experimental kinds use it. */
  class TypeRegistry {
    var checks: map<string, RegisteredCheck>

    constructor(initial: map<string, RegisteredCheck>)
      ensures checks == initial
    {
      checks := initial;
    }

    /** UnionOneOf: registers its check under "UnionOneOf" if none is there, and builds the schema. */
    method UnionOneOf(oneOf: seq<Schema>, options: Attrs) returns (s: Schema)
      modifies this
      ensures s == UnionOneOfSchema(oneOf, options)
      ensures checks == RegisterIfAbsent(old(checks), "UnionOneOf", OneOfRule)
    {
      if "UnionOneOf" !in checks {
        checks := checks["UnionOneOf" := OneOfRule];
      }
      s := UnionOneOfSchema(oneOf, options);
    }

    /** UnionEnum: registers its check under "UnionEnum" if none is there, and builds the schema. */
    method UnionEnum(values: seq<EnumValue>, options: Attrs) returns (s: Schema)
      modifies this
      ensures s == UnionEnumSchema(values, options)
      ensures checks == RegisterIfAbsent(old(checks), "UnionEnum", EnumRule)
    {
      if "UnionEnum" !in checks {
        checks := checks["UnionEnum" := EnumRule];
      }
      s := UnionEnumSchema(values, options);
    }

    /** StringEnum goes through UnionEnum, so it registers the same check. */
    method StringEnum(values: seq<string>, options: Attrs) returns (s: Schema)
      modifies this
      ensures s == StringEnumSchema(values, options)
      ensures checks == RegisterIfAbsent(old(checks), "UnionEnum", EnumRule)
    {
      s := UnionEnum(seq(|values|, i requires 0 <= i < |values| => EStr(values[i])), map[TypeKey := VStr("string")] + options);
    }
  }

  /** Building a kind twice registers its check once; a check registered earlier under the name is kept. */
  method BuildTwice(registry: TypeRegistry, values: seq<EnumValue>) returns (first: Schema, second: Schema)
    modifies registry
    ensures first == second == UnionEnumSchema(values, map[])
    ensures registry.checks == RegisterIfAbsent(old(registry.checks), "UnionEnum", EnumRule)
    ensures "UnionEnum" in old(registry.checks) ==> registry.checks == old(registry.checks)
  {
    first := registry.UnionEnum(values, map[]);
    second := registry.UnionEnum(values, map[]);
    RegisterIfAbsentIdempotent(old(registry.checks), "UnionEnum", EnumRule, EnumRule);
  }
}
