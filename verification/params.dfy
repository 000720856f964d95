/**
 * Turning JSON schemas into OpenAPI parameter descriptors: `description`,
 * `example` and `examples` move from the schema to the descriptor, and every
 * property of an object schema becomes one parameter.
 */
module Params {
  import opened Schemas

  /** TParamSchema; a field that is `undefined` is None. */
  datatype ParamSchema = ParamSchema(
    name: string,
    required: bool,
    schema: Schema,
    description: Option<Value>,
    example: Option<Value>,
    examples: Option<Value>)

  /** getParamSchema; `required` is None when the caller passes nothing or `undefined`. */
  function GetParamSchema(name: string, s: Schema, required: Option<bool>): (r: ParamSchema)
    ensures r.name == name && r.required == required.GetOr(false)
    ensures DescriptionKey !in r.schema.attrs && ExampleKey !in r.schema.attrs && ExamplesKey !in r.schema.attrs
  {
    ParamSchema(
      name,
      required.GetOr(false),
      s.(attrs := s.attrs - {DescriptionKey, ExampleKey, ExamplesKey}),
      Get(s.attrs, DescriptionKey),
      Get(s.attrs, ExampleKey),
      Get(s.attrs, ExamplesKey))
  }

  /** Puts a lifted field back into the schema it came from. */
  function Restore(a: Attrs, k: Key, v: Option<Value>): Attrs {
    if v.Some? then a[k := v.value] else a
  }

  /** The schema a descriptor was made from: its `schema` with the three lifted fields put back. */
  function ParamToSchema(p: ParamSchema): Schema {
    p.schema.(attrs := Restore(Restore(Restore(p.schema.attrs, DescriptionKey, p.description), ExampleKey, p.example), ExamplesKey, p.examples))
  }

  /** Nothing is lost: the lifted fields and the remaining schema together are the input schema. */
  lemma GetParamSchemaRoundTrip(name: string, s: Schema, required: Option<bool>)
    ensures ParamToSchema(GetParamSchema(name, s, required)) == s
  {
    var r := GetParamSchema(name, s, required);
    assert ParamToSchema(r).attrs == s.attrs;
  }

  /** getParamSchemas: one descriptor per property, in property order. */
  function GetParamSchemas(obj: Schema): (r: seq<ParamSchema>)
    requires obj.Object?
    ensures |r| == |obj.properties|
  {
    seq(|obj.properties|, i requires 0 <= i < |obj.properties| =>
      var (name, s) := obj.properties[i];
      GetParamSchema(name, s, if obj.required.Some? then Some(name in obj.required.value) else None))
  }

  /**
   * Descriptor `i` is named after property `i`, describes its schema, and is
   * required exactly when the object's `required` list names the property.
   */
  lemma GetParamSchemasPerProperty(obj: Schema)
    requires obj.Object?
    ensures var r := GetParamSchemas(obj);
      forall i | 0 <= i < |r| ::
        && r[i].name == obj.properties[i].0
        && ParamToSchema(r[i]) == obj.properties[i].1
        && (r[i].required <==> obj.required.Some? && obj.properties[i].0 in obj.required.value)
  {
    var r := GetParamSchemas(obj);
    forall i | 0 <= i < |r|
      ensures ParamToSchema(r[i]) == obj.properties[i].1
    {
      var (name, s) := obj.properties[i];
      GetParamSchemaRoundTrip(name, s, if obj.required.Some? then Some(name in obj.required.value) else None);
    }
  }
}
