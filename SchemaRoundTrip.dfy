/** The two samples composed: a schema converted into a type catalog
    (bicep-type-generation) and projected back to JSON Schema (get-arm-schema). */
module SchemaRoundTrip {
  import opened Wrappers
  import opened BicepTypes
  import G = TypeGeneration
  import S = ArmSchema

  /** The schema the projection gives back for a convertible input schema: the same
      tree of `type`s, where "integer" reads "number", titles are gone and, since a
      conversion sets no flags, no property is required. */
  function Expected(schema: G.JsonNode): S.Json
    decreases G.Size(schema)
  {
    match G.Classify(schema)
    case ObjectShape(_, ms) =>
      S.JObject([S.JsonMember("type", S.JString("object")),
                 S.JsonMember("properties", S.JObject(ExpectedProperties(ms))),
                 S.JsonMember("required", S.JArray([]))])
    case ArrayShape(items) =>
      S.JObject([S.JsonMember("type", S.JString("array")), S.JsonMember("items", Expected(items))])
    case LeafShape(_) =>
      var t := G.Text(G.Get(schema.members, "type"));
      S.TypeOnly(if t == "integer" then "number" else t)
    case Invalid(_) => S.JObject([])
  }

  function ExpectedProperties(ms: seq<G.JsonProperty>): (r: seq<S.JsonMember>)
    decreases G.PropsSize(ms)
    ensures |r| == |ms|
  {
    if ms == [] then [] else [S.JsonMember(ms[0].key, Expected(ms[0].value))] + ExpectedProperties(ms[1..])
  }

  lemma {:induction false} PlainFilters(ps: seq<NamedProperty>)
    requires G.PlainProperties(ps)
    ensures S.Writable(ps) == ps && S.RequiredWritable(ps) == []
  {
    if ps != [] {
      PlainFilters(ps[1..]);
      assert [ps[0]] + ps[1..] == ps;
    }
  }

  /** Converting a schema and projecting the node it returns yields `Expected(schema)`. */
  lemma {:induction false} ConvertThenProject(schema: G.JsonNode, types: seq<TypeNode>)
    requires Acyclic(types) && G.Converted(schema, types).result.Success?
    ensures var o := G.Converted(schema, types);
            S.ToJsonSchema(o.types, o.result.value) == Success(Expected(schema))
    decreases G.Size(schema), 0
  {
    match G.Classify(schema)
    case LeafShape(n) =>
    case ArrayShape(items) =>
      ConvertThenProject(items, types);
      var it := G.Converted(items, types);
      UnfoldArray(schema, items, types);
      S.ArrayProjection(it.types, it.result.value, Expected(items));
    case ObjectShape(title, ms) =>
      var p := G.ConvertedProperties(ms, types, []);
      var final := p.types + [ObjectType(title, p.result.value, None)];
      UnfoldObject(schema, title, ms, types);
      assert p.result.value[0..] == p.result.value;
      PropertiesThenProject(ms, types, [], final, |p.types|);
      ObjectThenProject(title, ms, types);
    case Invalid(_) =>
  }

  /** The same, in any acyclic arena that extends the conversion's. */
  lemma ConvertThenProjectIn(schema: G.JsonNode, types: seq<TypeNode>, final: seq<TypeNode>)
    requires Acyclic(types) && Acyclic(final) && G.Converted(schema, types).result.Success?
    requires G.Converted(schema, types).types <= final
    ensures var o := G.Converted(schema, types);
            S.ToJsonSchema(final, o.result.value) == Success(Expected(schema))
    decreases G.Size(schema), 1
  {
    var o := G.Converted(schema, types);
    ConvertThenProject(schema, types);
    S.ProjectionStablePrefix(o.types, final, o.result.value);
  }

  lemma UnfoldArray(schema: G.JsonNode, items: G.JsonNode, types: seq<TypeNode>)
    requires G.Classify(schema) == G.ArrayShape(items) && G.Converted(items, types).result.Success?
    ensures var it := G.Converted(items, types);
            && G.Converted(schema, types) == G.Outcome(it.types + [ArrayType(it.result.value)], Success(|it.types|))
            && Expected(schema) == S.JObject([S.JsonMember("type", S.JString("array")), S.JsonMember("items", Expected(items))])
  {
  }

  lemma ObjectThenProject(title: string, ms: seq<G.JsonProperty>, types: seq<TypeNode>)
    requires Acyclic(types) && G.ConvertedProperties(ms, types, []).result.Success?
    requires var p := G.ConvertedProperties(ms, types, []);
             var final := p.types + [ObjectType(title, p.result.value, None)];
             Acyclic(final) && S.ProjectProperties(final, |p.types|, p.result.value) == Success(ExpectedProperties(ms))
    ensures var p := G.ConvertedProperties(ms, types, []);
            var final := p.types + [ObjectType(title, p.result.value, None)];
            S.ToJsonSchema(final, |p.types|) == Success(S.JObject([S.JsonMember("type", S.JString("object")),
                                                                   S.JsonMember("properties", S.JObject(ExpectedProperties(ms))),
                                                                   S.JsonMember("required", S.JArray([]))]))
  {
    var p := G.ConvertedProperties(ms, types, []);
    var ps := p.result.value;
    var final := p.types + [ObjectType(title, ps, None)];
    G.ConvertedPropertiesNames(ms, types, []);
    PlainFilters(ps);
    assert final[|p.types|] == ObjectType(title, ps, None);
    S.ObjectProjection(final, |p.types|, ExpectedProperties(ms));
    assert S.StringValues(Names([])) == [];
  }

  lemma UnfoldObject(schema: G.JsonNode, title: string, ms: seq<G.JsonProperty>, types: seq<TypeNode>)
    requires G.Classify(schema) == G.ObjectShape(title, ms) && G.ConvertedProperties(ms, types, []).result.Success?
    ensures var p := G.ConvertedProperties(ms, types, []);
            && G.Converted(schema, types) == G.Outcome(p.types + [ObjectType(title, p.result.value, None)], Success(|p.types|))
            && Expected(schema) == S.JObject([S.JsonMember("type", S.JString("object")),
                                              S.JsonMember("properties", S.JObject(ExpectedProperties(ms))),
                                              S.JsonMember("required", S.JArray([]))])
  {
  }

  lemma {:induction false} PropertiesThenProject(ms: seq<G.JsonProperty>, types: seq<TypeNode>, done: seq<NamedProperty>,
                                                 final: seq<TypeNode>, owner: nat)
    requires Acyclic(types) && Acyclic(final)
    requires G.ConvertedProperties(ms, types, done).result.Success?
    requires G.ConvertedProperties(ms, types, done).types <= final
    requires var ps := G.ConvertedProperties(ms, types, done).result.value;
             owner <= |final| && |done| <= |ps| && PropertyRefsBelow(ps[|done|..], owner)
    ensures var ps := G.ConvertedProperties(ms, types, done).result.value;
            S.ProjectProperties(final, owner, ps[|done|..]) == Success(ExpectedProperties(ms))
    decreases G.PropsSize(ms), 0
  {
    var ps := G.ConvertedProperties(ms, types, done).result.value;
    if ms == [] {
      assert ps[|done|..] == [];
    } else {
      var v := G.Converted(ms[0].value, types);
      var done' := done + [NamedProperty(ms[0].key, ObjectProperty(v.result.value, {}, None))];
      G.ConvertedPropertiesStep(ms, types, done);
      G.ConvertedPropertiesKeepDone(ms[1..], v.types, done');
      assert v.types <= G.ConvertedProperties(ms[1..], v.types, done').types;
      ConvertThenProjectIn(ms[0].value, types, final);
      var rest := ps[|done|..];
      assert rest[0] == done'[|done|];
      assert rest[1..] == ps[|done'|..];
      PropertiesThenProject(ms[1..], v.types, done', final, owner);
    }
  }
}
