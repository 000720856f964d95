/**
 * The TypeBox schema tree as the core sees it: every node is a JavaScript
 * object with a `[Kind]` tag, the fields that its kind gives structure to
 * (`anyOf`, `allOf`, `items`, `properties`, `const`, `enum`, `oneOf`) and any
 * number of further fields (`format`, `description`, `nullable`, the
 * Optional modifier symbol, ...), which are kept in `attrs`.
 */
module Schemas {

  datatype Option<+T> = None | Some(value: T) {
    function GetOr(default: T): T {
      match this
      case Some(v) => v
      case None => default
    }
  }

  /** A JSON value, as carried by schema fields and by the values being validated. */
  datatype Value =
    | VNull
    | VBool(b: bool)
    | VNum(n: int)
    | VStr(s: string)
    | VList(elems: seq<Value>)
    | VObject(fields: seq<(string, Value)>)

  /** An object key: a string property, or a symbol such as TypeBox's OptionalKind. */
  datatype Key = Prop(name: string) | Sym(name: string)

  type Attrs = map<Key, Value>

  const TypeKey: Key := Prop("type")
  const EnumKey: Key := Prop("enum")
  const NullableKey: Key := Prop("nullable")
  const OneOfKey: Key := Prop("oneOf")
  const DescriptionKey: Key := Prop("description")
  const ExampleKey: Key := Prop("example")
  const ExamplesKey: Key := Prop("examples")
  const ConstKey: Key := Prop("const")
  /** `[Kind]`, the tag every TypeBox schema carries; here the constructor of a Schema stands for it. */
  const KindKey: Key := Sym("TypeBox.Kind")
  /** `[OptionalKind]: "Optional"`, the modifier `Type.Optional` adds. */
  const OptionalKey: Key := Sym("TypeBox.Optional")

  /** The value of field `k`, or None when the field is undefined. */
  function Get(a: Attrs, k: Key): Option<Value> {
    if k in a then Some(a[k]) else None
  }

  /** JavaScript truthiness of a possibly undefined field (NaN is not modelled). */
  predicate Truthy(v: Option<Value>) {
    match v
    case None => false
    case Some(VNull) => false
    case Some(VBool(b)) => b
    case Some(VNum(n)) => n != 0
    case Some(VStr(s)) => s != ""
    case Some(VList(_)) => true
    case Some(VObject(_)) => true
  }

  /** A literal constant: TypeBox's TLiteralValue is boolean | number | string. */
  datatype Lit = LBool(b: bool) | LNum(n: int) | LStr(s: string)

  /** A member of a UnionEnum: string | number. */
  datatype EnumValue = EStr(s: string) | ENum(n: int)

  function LitValue(c: Lit): Value {
    match c
    case LBool(b) => VBool(b)
    case LNum(n) => VNum(n)
    case LStr(s) => VStr(s)
  }

  function EnumValueOf(e: EnumValue): Value {
    match e
    case EStr(s) => VStr(s)
    case ENum(n) => VNum(n)
  }

  /** `typeof c` for a literal constant. */
  function TypeOfLit(c: Lit): string {
    match c
    case LBool(_) => "boolean"
    case LNum(_) => "number"
    case LStr(_) => "string"
  }

  /** The Kind name of a schema without a constructor of its own; the kinds modelled structurally are excluded. */
  type LeafKind = k: string
    | k !in {"Union", "Intersect", "Array", "Object", "Literal", "Null", "UnionEnum", "UnionOneOf"}
    witness "String"

  datatype Schema =
    | Union(anyOf: seq<Schema>, attrs: Attrs)
    | Intersect(allOf: seq<Schema>, attrs: Attrs)
    | Array(items: Schema, attrs: Attrs)
    | Object(properties: seq<(string, Schema)>, required: Option<seq<string>>, attrs: Attrs)
      /** `const` is `value`; `type` and `enum`, when present, are in `attrs`. */
    | Literal(value: Lit, attrs: Attrs)
    | Null(attrs: Attrs)
    | UnionEnum(enum: seq<EnumValue>, attrs: Attrs)
    | UnionOneOf(oneOf: seq<Schema>, attrs: Attrs)
      /**
       * Every other kind (String, Number, Record, Tuple, Not, ...), by its Kind
       * name, with the schemas it holds (a Record's value schema, a Tuple's
       * items) in `children`.
       */
    | Leaf(kind: LeafKind, children: seq<Schema>, attrs: Attrs)

  /** `{ ...s, nullable: true }` */
  function WithNullable(s: Schema): (r: Schema)
    ensures r.attrs == s.attrs[NullableKey := VBool(true)]
  {
    s.(attrs := s.attrs[NullableKey := VBool(true)])
  }

  /** Number of nodes in a schema tree, leaf kinds' children included; the fields in `attrs` do not count. */
  ghost function Size(s: Schema): nat {
    match s
    case Union(anyOf, _) => 1 + SizeAll(anyOf)
    case Intersect(allOf, _) => 1 + SizeAll(allOf)
    case Array(items, _) => 1 + Size(items)
    case Object(props, _, _) => 1 + SizeProps(props)
    case UnionOneOf(oneOf, _) => 1 + SizeAll(oneOf)
    case Leaf(_, children, _) => 1 + SizeAll(children)
    case _ => 1
  }

  ghost function SizeAll(ss: seq<Schema>): nat {
    if ss == [] then 0 else Size(ss[0]) + SizeAll(ss[1..])
  }

  ghost function SizeProp(p: (string, Schema)): nat {
    Size(p.1)
  }

  ghost function SizeProps(ps: seq<(string, Schema)>): nat {
    if ps == [] then 0 else SizeProp(ps[0]) + SizeProps(ps[1..])
  }

  lemma {:induction false} SizeAllBounds(ss: seq<Schema>, i: nat)
    requires i < |ss|
    ensures Size(ss[i]) < 1 + SizeAll(ss)
  {
    if i > 0 {
      SizeAllBounds(ss[1..], i - 1);
    }
  }

  /** A union is strictly larger than each of its branches. */
  lemma UnionBranchSmaller(s: Schema, i: nat)
    requires s.Union? && i < |s.anyOf|
    ensures Size(s.anyOf[i]) < Size(s)
  {
    SizeAllBounds(s.anyOf, i);
  }

  lemma SizeIgnoresAttrs(s: Schema, a: Attrs)
    ensures Size(s.(attrs := a)) == Size(s)
  {
  }
}
