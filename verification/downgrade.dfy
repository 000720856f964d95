/**
 * Rewriting a schema tree toward OpenAPI 3.0 (`nullable: true` instead of a
 * union with Null, `type` and `enum` beside a literal's `const`), and the
 * cheap pre-check that tells whether the rewrite would change anything.
 */
module Downgrade {
  import opened Schemas

  /** A union of exactly two branches, at least one of them Null. */
  predicate IsNullableUnion(s: Schema) {
    s.Union? && |s.anyOf| == 2 && (s.anyOf[0].Null? || s.anyOf[1].Null?)
  }

  /** `schema.enum && schema.type` is truthy. */
  predicate HasTypeAndEnum(s: Schema) {
    Truthy(Get(s.attrs, EnumKey)) && Truthy(Get(s.attrs, TypeKey))
  }

  /** A literal without a truthy `enum` and `type`. */
  predicate IsBareLiteral(s: Schema) {
    s.Literal? && !HasTypeAndEnum(s)
  }

  /** The literal with `type` set to the runtime type of `const` and `enum` to `[const]`. */
  function EnrichLiteral(s: Schema): Schema
    requires s.Literal?
  {
    Literal(s.value, s.attrs[TypeKey := VStr(TypeOfLit(s.value))][EnumKey := VList([LitValue(s.value)])])
  }

  /** shouldDowngradeSchema */
  predicate ShouldDowngrade(s: Schema): (b: bool)
    ensures IsNullableUnion(s) || IsBareLiteral(s) ==> b
    ensures b ==> IsNullableUnion(s) || IsBareLiteral(s) || s.Array? || s.Object? || s.Intersect? || s.Union?
    ensures b && !IsNullableUnion(s) && !IsBareLiteral(s) ==>
      && (s.Array? ==> ShouldDowngrade(s.items))
      && (s.Object? ==> exists i | 0 <= i < |s.properties| :: ShouldDowngrade(s.properties[i].1))
      && (s.Intersect? ==> exists i | 0 <= i < |s.allOf| :: ShouldDowngrade(s.allOf[i]))
      && (s.Union? ==> exists i | 0 <= i < |s.anyOf| :: ShouldDowngrade(s.anyOf[i]))
  {
    if IsNullableUnion(s) || IsBareLiteral(s) then true
    else match s
      case Array(items, _) => ShouldDowngrade(items)
      case Object(props, _, _) => exists i | 0 <= i < |props| :: ShouldDowngrade(props[i].1)
      case Intersect(allOf, _) => exists i | 0 <= i < |allOf| :: ShouldDowngrade(allOf[i])
      case Union(anyOf, _) => exists i | 0 <= i < |anyOf| :: ShouldDowngrade(anyOf[i])
      case _ => false
  }

  /**
   * downgradeSchema. The branch a nullable union is collapsed to is returned
   * with `nullable: true` added and is not itself downgraded.
   */
  function Downgrade(s: Schema): (r: Schema)
    ensures IsNullableUnion(s) ==> Get(r.attrs, NullableKey) == Some(VBool(true))
    ensures IsBareLiteral(s) ==> r.Literal? && r.value == s.value && HasTypeAndEnum(r)
    ensures !IsNullableUnion(s) ==> !IsBareLiteral(r)
    ensures !IsNullableUnion(s) && !IsBareLiteral(s) ==> r.attrs == s.attrs
  {
    if IsNullableUnion(s) then
      if s.anyOf[0].Null? then WithNullable(s.anyOf[1]) else WithNullable(s.anyOf[0])
    else if IsBareLiteral(s) then
      EnrichLiteral(s)
    else match s
      case Array(items, a) => Array(Downgrade(items), a)
      case Object(props, req, a) =>
        Object(seq(|props|, i requires 0 <= i < |props| => (props[i].0, Downgrade(props[i].1))), req, a)
      case Intersect(allOf, a) =>
        Intersect(seq(|allOf|, i requires 0 <= i < |allOf| => Downgrade(allOf[i])), a)
      case Union(anyOf, a) =>
        Union(seq(|anyOf|, i requires 0 <= i < |anyOf| => Downgrade(anyOf[i])), a)
      case _ => s
  }

  // ---------------------------------------------------------------------------
  // The rewrite rules, one lemma each

  /** A nullable union becomes its non-Null branch plus `nullable: true`; the second branch wins when both are Null. */
  lemma NullableUnionCollapses(x: Schema, y: Schema, a: Attrs)
    requires x.Null? || y.Null?
    ensures Downgrade(Union([x, y], a)) == if x.Null? then WithNullable(y) else WithNullable(x)
    ensures x.Null? ==> Downgrade(Union([x, y], a)).attrs == y.attrs[NullableKey := VBool(true)]
    ensures !x.Null? ==> Downgrade(Union([x, y], a)).attrs == x.attrs[NullableKey := VBool(true)]
    ensures Downgrade(Union([x, y], a)) == Downgrade(Union([x, y], map[]))
  {
  }

  /** The promoted branch is not downgraded: downgrading twice can change the result again. */
  lemma DowngradeNotIdempotent()
    ensures var s := Union([Null(map[]), Array(Union([Null(map[]), Leaf("String", [], map[])], map[]), map[])], map[]);
            Downgrade(Downgrade(s)) != Downgrade(s)
  {
    var inner := Union([Null(map[]), Leaf("String", [], map[])], map[]);
    var s := Union([Null(map[]), Array(inner, map[])], map[]);
    assert Downgrade(s) == Array(inner, map[NullableKey := VBool(true)]);
    assert Downgrade(Downgrade(s)).items == WithNullable(Leaf("String", [], map[]));
  }

  /** A bare literal keeps `const` and every other field, and gains `type` and `enum: [const]`. */
  lemma BareLiteralEnriched(s: Schema)
    requires IsBareLiteral(s)
    ensures var r := Downgrade(s);
      && r.Literal? && r.value == s.value
      && r.attrs[TypeKey] == VStr(TypeOfLit(s.value))
      && r.attrs[EnumKey] == VList([LitValue(s.value)])
      && r.attrs.Keys == s.attrs.Keys + {TypeKey, EnumKey}
      && (forall k :: k in s.attrs && k != TypeKey && k != EnumKey ==> r.attrs[k] == s.attrs[k])
      && HasTypeAndEnum(r)
      && Downgrade(r) == r
  {
  }

  /** A literal that already has a truthy `enum` and `type` is left as it is. */
  lemma CompleteLiteralUnchanged(s: Schema)
    requires s.Literal? && HasTypeAndEnum(s)
    ensures Downgrade(s) == s && !ShouldDowngrade(s)
  {
  }

  /** A union of any other shape keeps its fields; its branches are downgraded one by one, in order. */
  lemma OtherUnionMapped(s: Schema)
    requires s.Union? && !IsNullableUnion(s)
    ensures var r := Downgrade(s);
      && r.Union? && r.attrs == s.attrs && |r.anyOf| == |s.anyOf|
      && forall i | 0 <= i < |s.anyOf| :: r.anyOf[i] == Downgrade(s.anyOf[i])
  {
  }

  /** Array, Object and Intersect nodes keep every field but their children, which are downgraded in place. */
  lemma ContainersMapped(s: Schema)
    requires s.Array? || s.Object? || s.Intersect?
    ensures var r := Downgrade(s);
      && r.attrs == s.attrs
      && (s.Array? ==> r.Array? && r.items == Downgrade(s.items))
      && (s.Intersect? ==>
            && r.Intersect? && |r.allOf| == |s.allOf|
            && forall i | 0 <= i < |s.allOf| :: r.allOf[i] == Downgrade(s.allOf[i]))
      && (s.Object? ==>
            && r.Object? && r.required == s.required && |r.properties| == |s.properties|
            && forall i | 0 <= i < |s.properties| ::
                 r.properties[i].0 == s.properties[i].0 && r.properties[i].1 == Downgrade(s.properties[i].1))
  {
  }

  /** Every other kind is returned unchanged; in particular the members of a UnionOneOf are not visited. */
  lemma OtherKindsUnchanged(s: Schema)
    requires s.Null? || s.UnionEnum? || s.UnionOneOf? || s.Leaf?
    ensures Downgrade(s) == s && !ShouldDowngrade(s)
  {
  }

  // ---------------------------------------------------------------------------
  // The pre-check and the rewrite in lock-step

  /** When the pre-check says no, the rewrite returns a structurally equal schema. */
  lemma {:induction false} NoDowngradeNeededIsIdentity(s: Schema)
    requires !ShouldDowngrade(s)
    ensures Downgrade(s) == s
  {
    match s
    case Array(items, a) =>
      NoDowngradeNeededIsIdentity(items);
    case Object(props, req, a) =>
      forall i | 0 <= i < |props| ensures Downgrade(props[i].1) == props[i].1 {
        NoDowngradeNeededIsIdentity(props[i].1);
      }
      assert Downgrade(s).properties == props;
    case Intersect(allOf, a) =>
      forall i | 0 <= i < |allOf| ensures Downgrade(allOf[i]) == allOf[i] {
        NoDowngradeNeededIsIdentity(allOf[i]);
      }
      assert Downgrade(s).allOf == allOf;
    case Union(anyOf, a) =>
      forall i | 0 <= i < |anyOf| ensures Downgrade(anyOf[i]) == anyOf[i] {
        NoDowngradeNeededIsIdentity(anyOf[i]);
      }
      assert Downgrade(s).anyOf == anyOf;
    case _ =>
  }

  /** When the pre-check says yes, the rewrite really changes the schema. */
  lemma {:induction false} DowngradeNeededChanges(s: Schema)
    requires ShouldDowngrade(s)
    ensures Downgrade(s) != s
  {
    if IsNullableUnion(s) {
      var b := if s.anyOf[0].Null? then 1 else 0;
      UnionBranchSmaller(s, b);
      SizeIgnoresAttrs(s.anyOf[b], s.anyOf[b].attrs[NullableKey := VBool(true)]);
      assert Size(Downgrade(s)) < Size(s);
    } else if IsBareLiteral(s) {
      assert HasTypeAndEnum(Downgrade(s));
    } else {
      match s
      case Array(items, a) =>
        DowngradeNeededChanges(items);
      case Object(props, req, a) =>
        var i :| 0 <= i < |props| && ShouldDowngrade(props[i].1);
        DowngradeNeededChanges(props[i].1);
        assert Downgrade(s).properties[i] != props[i];
      case Intersect(allOf, a) =>
        var i :| 0 <= i < |allOf| && ShouldDowngrade(allOf[i]);
        DowngradeNeededChanges(allOf[i]);
        assert Downgrade(s).allOf[i] != allOf[i];
      case Union(anyOf, a) =>
        var i :| 0 <= i < |anyOf| && ShouldDowngrade(anyOf[i]);
        DowngradeNeededChanges(anyOf[i]);
        assert Downgrade(s).anyOf[i] != anyOf[i];
    }
  }

  /** The pre-check answers exactly whether the rewrite changes the schema. */
  lemma ShouldDowngradeIffChanged(s: Schema)
    ensures ShouldDowngrade(s) <==> Downgrade(s) != s
  {
    if ShouldDowngrade(s) {
      DowngradeNeededChanges(s);
    } else {
      NoDowngradeNeededIsIdentity(s);
    }
  }
}
