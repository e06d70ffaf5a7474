/** Generation of a Bicep type catalog from a JSON schema (bicep-type-generation/Program.cs):
    a recursive walk that appends one node per schema node to a TypeFactory, children
    first, then a resource node and the name index of the catalog. */
module TypeGeneration {
  import opened Wrappers
  import opened BicepTypes
  import opened Sequences

  /** A parsed JSON document (System.Text.Json.Nodes). `JNull` stands for a C# null
      node: a JSON `null` and a missing member read the same. */
  datatype JsonNode =
    | JNull
    | JBool(b: bool)
    | JNumber(literal: string)
    | JString(s: string)
    | JArray(items: seq<JsonNode>)
    | JObject(members: seq<JsonProperty>)

  datatype JsonProperty = JsonProperty(key: string, value: JsonNode)

  /** The exceptions a conversion can end in. */
  datatype ConvertError =
    | NullReference        // a schema node, or its `type`, is null or missing
    | NotAnObject          // indexing a node that is not a JSON object
    | PropertiesNotObject  // `properties` missing or not an object (ToDictionary on null)
    | DuplicateKey(key: string)  // a key met twice, which a parsed JsonObject cannot hold
    | Unsupported(typeText: string)  // NotSupportedException for any other `type`

  /** Structural size; a sub-schema is always smaller than the schema holding it. */
  function Size(n: JsonNode): nat
  {
    match n
    case JArray(items) => 1 + ItemsSize(items)
    case JObject(ms) => 1 + PropsSize(ms)
    case _ => 0
  }

  function ItemsSize(items: seq<JsonNode>): nat
  {
    if items == [] then 0 else 1 + Size(items[0]) + ItemsSize(items[1..])
  }

  function PropsSize(ms: seq<JsonProperty>): nat
  {
    if ms == [] then 0 else 1 + Size(ms[0].value) + PropsSize(ms[1..])
  }

  lemma {:induction false} MemberSmaller(ms: seq<JsonProperty>, k: nat)
    requires k < |ms|
    ensures Size(ms[k].value) < PropsSize(ms)
  {
    if k > 0 {
      MemberSmaller(ms[1..], k - 1);
    }
  }

  /** The value of member `key` of an object, or null when it is absent. */
  function Get(ms: seq<JsonProperty>, key: string): (v: JsonNode)
    ensures v.JNull? || Size(v) < PropsSize(ms)
  {
    if ms == [] then JNull
    else if ms[0].key == key then ms[0].value
    else Get(ms[1..], key)
  }

  /** `ToString()` of a non-null node: a string value is its text, a number its literal;
      an array or object is abbreviated (see README). */
  function Text(n: JsonNode): string
    requires !n.JNull?
  {
    match n
    case JBool(b) => if b then "true" else "false"
    case JNumber(lit) => lit
    case JString(s) => s
    case JArray(_) => "[...]"
    case JObject(_) => "{...}"
  }

  /** What the `switch` on the schema's `type` asks for (lines 57-76). */
  datatype Shape =
    | ObjectShape(title: string, properties: seq<JsonProperty>)
    | ArrayShape(items: JsonNode)
    | LeafShape(node: TypeNode)
    | Invalid(error: ConvertError)

  function Classify(schema: JsonNode): (s: Shape)
    ensures s.ObjectShape? ==> PropsSize(s.properties) < Size(schema)
    ensures s.ArrayShape? ==> Size(s.items) < Size(schema)
  {
    match schema
    case JNull => Invalid(NullReference)
    case JObject(ms) =>
      var t := Get(ms, "type");
      if t.JNull? then Invalid(NullReference)
      else
        var text := Text(t);
        if text == "object" then
          var title := Get(ms, "title");
          var props := Get(ms, "properties");
          if props.JObject? then ObjectShape(if title.JNull? then "object" else Text(title), props.members)
          else Invalid(PropertiesNotObject)
        else if text == "array" then ArrayShape(Get(ms, "items"))
        else if text == "integer" || text == "number" then LeafShape(IntegerType)
        else if text == "string" then LeafShape(StringType)
        else if text == "boolean" then LeafShape(BooleanType)
        else Invalid(Unsupported(text))
    case _ => Invalid(NotAnObject)
  }

  /** The number of schema nodes: the node itself plus its sub-schemas. */
  function SchemaSize(schema: JsonNode): nat
    decreases Size(schema)
  {
    match Classify(schema)
    case ObjectShape(_, ms) => 1 + PropsSchemaSize(ms)
    case ArrayShape(items) => 1 + SchemaSize(items)
    case LeafShape(_) => 1
    case Invalid(_) => 0
  }

  function PropsSchemaSize(ms: seq<JsonProperty>): nat
    decreases PropsSize(ms)
  {
    if ms == [] then 0 else SchemaSize(ms[0].value) + PropsSchemaSize(ms[1..])
  }

  /** The keys of a JSON object's members. ArmSchema has a Keys of its own over its
      output JSON type, which is a different datatype from this input one. */
  function Keys(ms: seq<JsonProperty>): (r: seq<string>)
    ensures |r| == |ms| && forall k :: 0 <= k < |ms| ==> r[k] == ms[k].key
  {
    seq(|ms|, k requires 0 <= k < |ms| => ms[k].key)
  }

  /** The properties a conversion creates: no flags and no description. */
  predicate PlainProperties(ps: seq<NamedProperty>)
  {
    forall k :: 0 <= k < |ps| ==> ps[k].prop.flags == {} && ps[k].prop.description == None
  }

  /** The factory's node list after a conversion, and the conversion's result. */
  datatype Outcome<T> = Outcome(types: seq<TypeNode>, result: Result<T, ConvertError>)

  /** Convert, as a function of the factory's node list before the call. Nodes created
      before an exception stay in the list. */
  function Converted(schema: JsonNode, types: seq<TypeNode>): (o: Outcome<nat>)
    decreases Size(schema)
    ensures types <= o.types
    ensures Acyclic(types) ==> Acyclic(o.types)
    ensures o.result.Success? ==> o.result.value == |o.types| - 1 && |o.types| == |types| + SchemaSize(schema)
  {
    match Classify(schema)
    case Invalid(e) => Outcome(types, Failure(e))
    case LeafShape(n) => Outcome(types + [n], Success(|types|))
    case ArrayShape(items) =>
      var it := Converted(items, types);
      if it.result.Failure? then Outcome(it.types, Failure(it.result.error))
      else
        var node := ArrayType(it.result.value);
        AppendAcyclic(it.types, node);
        Outcome(it.types + [node], Success(|it.types|))
    case ObjectShape(title, ms) =>
      var p := ConvertedProperties(ms, types, []);
      if p.result.Failure? then Outcome(p.types, Failure(p.result.error))
      else
        var node := ObjectType(title, p.result.value, None);
        AppendAcyclic(p.types, node);
        Outcome(p.types + [node], Success(|p.types|))
  }

  /** The `ToDictionary` over the schema's `properties` (lines 61-62), from the
      properties `done` so far: each value is converted in order and then added. */
  function ConvertedProperties(ms: seq<JsonProperty>, types: seq<TypeNode>, done: seq<NamedProperty>): (o: Outcome<seq<NamedProperty>>)
    decreases PropsSize(ms)
    ensures types <= o.types
    ensures Acyclic(types) ==> Acyclic(o.types)
    ensures o.result.Success? ==> |o.types| == |types| + PropsSchemaSize(ms)
    ensures o.result.Success? && PropertyRefsBelow(done, |types|) ==> PropertyRefsBelow(o.result.value, |o.types|)
  {
    if ms == [] then Outcome(types, Success(done))
    else
      var v := Converted(ms[0].value, types);
      if v.result.Failure? then Outcome(v.types, Failure(v.result.error))
      else if ms[0].key in Names(done) then Outcome(v.types, Failure(DuplicateKey(ms[0].key)))
      else
        var done' := done + [NamedProperty(ms[0].key, ObjectProperty(v.result.value, {}, None))];
        ExtendDone(done, ms[0].key, v.result.value, |types|, |v.types|);
        ConvertedProperties(ms[1..], v.types, done')
  }

  /** Adding one converted property with reference `ref` to the properties done. */
  lemma ExtendDone(done: seq<NamedProperty>, key: string, ref: nat, bound: nat, bound': nat)
    requires bound <= bound' && ref < bound'
    ensures var done' := done + [NamedProperty(key, ObjectProperty(ref, {}, None))];
            && done <= done'
            && Names(done') == Names(done) + [key]
            && (PropertyRefsBelow(done, bound) ==> PropertyRefsBelow(done', bound'))
            && (PlainProperties(done) ==> PlainProperties(done'))
            && (DistinctNames(done) && key !in Names(done) ==> DistinctNames(done'))
  {
    var done' := done + [NamedProperty(key, ObjectProperty(ref, {}, None))];
    assert Names(done') == Names(done) + [key];
    if DistinctNames(done) && key !in Names(done) {
      forall j, k | 0 <= j < k < |done'| ensures done'[j].name != done'[k].name {
        if k == |done| {
          assert done'[j].name == Names(done)[j];
        }
      }
    }
  }

  /** The properties a successful loop ends with: those done before, then one per
      schema property with its key, in schema order, unique, flags none and no
      description. */
  lemma {:induction false} ConvertedPropertiesNames(ms: seq<JsonProperty>, types: seq<TypeNode>, done: seq<NamedProperty>)
    requires ConvertedProperties(ms, types, done).result.Success?
    ensures var r := ConvertedProperties(ms, types, done).result.value;
            && done <= r
            && Names(r) == Names(done) + Keys(ms)
            && (PlainProperties(done) ==> PlainProperties(r))
            && (DistinctNames(done) ==> DistinctNames(r))
    decreases PropsSize(ms)
  {
    if ms == [] {
      assert Names(done) + [] == Names(done);
    } else {
      ConvertedPropertiesStep(ms, types, done);
      var v := Converted(ms[0].value, types);
      var done' := done + [NamedProperty(ms[0].key, ObjectProperty(v.result.value, {}, None))];
      ExtendDone(done, ms[0].key, v.result.value, |types|, |v.types|);
      MemberSmaller(ms, 0);
      ConvertedPropertiesNames(ms[1..], v.types, done');
      assert Keys(ms) == [ms[0].key] + Keys(ms[1..]);
      Associative(Names(done), [ms[0].key], Keys(ms[1..]));
    }
  }

  /** The properties done before the loop are a prefix of those it ends with. */
  lemma ConvertedPropertiesKeepDone(ms: seq<JsonProperty>, types: seq<TypeNode>, done: seq<NamedProperty>)
    requires ConvertedProperties(ms, types, done).result.Success?
    ensures done <= ConvertedProperties(ms, types, done).result.value
  {
    ConvertedPropertiesNames(ms, types, done);
  }

  /** One step of the properties loop, when the whole loop succeeds. */
  lemma ConvertedPropertiesStep(ms: seq<JsonProperty>, types: seq<TypeNode>, done: seq<NamedProperty>)
    requires ms != [] && ConvertedProperties(ms, types, done).result.Success?
    ensures var v := Converted(ms[0].value, types);
            && v.result.Success? && ms[0].key !in Names(done)
            && ConvertedProperties(ms, types, done)
               == ConvertedProperties(ms[1..], v.types, done + [NamedProperty(ms[0].key, ObjectProperty(v.result.value, {}, None))])
  {
  }

  lemma AppendAcyclic(types: seq<TypeNode>, node: TypeNode)
    requires Acyclic(types) ==> RefsBelow(node, |types|)
    ensures Acyclic(types) ==> Acyclic(types + [node])
  {
  }

  /** TypeFactory from Azure.Bicep.Types, as the sample uses it: an append-only list of
      nodes. A created node is identified by its position, which is also what
      `GetReference` and `GetIndex` return for it. */
  class TypeFactory {
    var types: seq<TypeNode>

    constructor (initial: seq<TypeNode>)
      ensures types == initial
    {
      types := initial;
    }

    /** Appends `node` and returns its position. */
    method Create(node: TypeNode) returns (index: nat)
      modifies this
      ensures types == old(types) + [node]
      ensures index == |old(types)| && types[index] == node
    {
      index := |types|;
      types := types + [node];
    }
  }

  /** Convert (lines 55-78): converts `schema`, appending to `factory` the nodes of its
      sub-schemas and then its own, and returns the position of its own node. */
  method Convert(factory: TypeFactory, schema: JsonNode) returns (r: Result<nat, ConvertError>)
    modifies factory
    decreases Size(schema)
    ensures Outcome(factory.types, r) == Converted(schema, old(factory.types))
  {
    match Classify(schema)
    case Invalid(e) =>
      r := Failure(e);
    case LeafShape(n) =>
      var index := factory.Create(n);
      r := Success(index);
    case ArrayShape(items) =>
      var itemsType := Convert(factory, items);
      if itemsType.Failure? {
        return Failure(itemsType.error);
      }
      var index := factory.Create(ArrayType(itemsType.value));
      r := Success(index);
    case ObjectShape(title, ms) =>
      var properties: seq<NamedProperty> := [];
      var j := 0;
      while j < |ms|
        invariant 0 <= j <= |ms|
        invariant ConvertedProperties(ms, old(factory.types), []) == ConvertedProperties(ms[j..], factory.types, properties)
      {
        assert ms[j..][0] == ms[j] && ms[j..][1..] == ms[j + 1..];
        MemberSmaller(ms, j);
        var value := Convert(factory, ms[j].value);
        if value.Failure? {
          return Failure(value.error);
        }
        if ms[j].key in Names(properties) {
          return Failure(DuplicateKey(ms[j].key));
        }
        properties := properties + [NamedProperty(ms[j].key, ObjectProperty(value.value, {}, None))];
        j := j + 1;
      }
      assert ms[j..] == [];
      var index := factory.Create(ObjectType(title, properties, None));
      r := Success(index);
  }

  /** A position in a named types file (CrossFileTypeReference). */
  datatype CrossFileTypeReference = CrossFileTypeReference(relativePath: string, index: nat)

  /** TypeSettings; the configuration type is null here, hence an Option. */
  datatype TypeSettings = TypeSettings(name: string, version: string, isSingleton: bool, configurationType: Option<CrossFileTypeReference>)

  /** TypeIndex: resource name to its node, resource functions, settings. */
  datatype TypeIndex = TypeIndex(
    resources: map<string, CrossFileTypeReference>,
    resourceFunctions: map<string, map<string, seq<CrossFileTypeReference>>>,
    settings: TypeSettings)

  /** The two documents the sample writes: the factory's nodes (types.json) and the
      index (index.json). */
  datatype Catalog = Catalog(types: seq<TypeNode>, index: TypeIndex)

  const TypesFile := "types.json"

  const Settings := TypeSettings("Testing", "0.0.1", false, None)

  /** Main (lines 10-42) as a function of the parsed input document. */
  function Generated(input: JsonNode): Result<Catalog, ConvertError>
  {
    if input.JNull? then Failure(NullReference)
    else if !input.JObject? then Failure(NotAnObject)
    else
      var typeName := Get(input.members, "type");
      var version := Get(input.members, "version");
      var schema := Get(input.members, "schema");
      if typeName.JNull? || version.JNull? || schema.JNull? then Failure(NullReference)
      else if !schema.JObject? then Failure(NotAnObject)
      else
        Assemble(Converted(Get(schema.members, "embedded"), []), Text(typeName) + "@" + Text(version))
  }

  /** The end of Main: the resource node over the converted body, and the index of it. */
  function Assemble(body: Outcome<nat>, name: string): Result<Catalog, ConvertError>
  {
    if body.result.Failure? then Failure(body.result.error)
    else
      var types := body.types + [ResourceType(name, Unknown, body.result.value, {})];
      Success(Catalog(types, TypeIndex(map[name := CrossFileTypeReference(TypesFile, |types| - 1)], map[], Settings)))
  }

  lemma AssembledCatalog(body: Outcome<nat>, name: string)
    requires body.result.Success? && Acyclic(body.types) && body.result.value == |body.types| - 1
    ensures var c := Assemble(body, name).value;
            var last := |c.types| - 1;
            && |c.types| >= 2
            && c.types[..last] == body.types
            && Acyclic(c.types)
            && c.types[last] == ResourceType(name, Unknown, last - 1, {})
            && c.index.resources == map[name := CrossFileTypeReference("types.json", last)]
            && c.index.resourceFunctions == map[]
            && c.index.settings == TypeSettings("Testing", "0.0.1", false, None)
  {
    AppendAcyclic(body.types, ResourceType(name, Unknown, body.result.value, {}));
  }

  /** Main without the file I/O: reads `type` and `version`, converts
      `schema.embedded`, creates the resource node and builds the index. */
  method Generate(input: JsonNode) returns (r: Result<Catalog, ConvertError>)
    ensures r == Generated(input)
  {
    if input.JNull? {
      return Failure(NullReference);
    }
    if !input.JObject? {
      return Failure(NotAnObject);
    }
    var factory := new TypeFactory([]);
    var typeName := Get(input.members, "type");
    if typeName.JNull? {
      return Failure(NullReference);
    }
    var version := Get(input.members, "version");
    if version.JNull? {
      return Failure(NullReference);
    }
    var schema := Get(input.members, "schema");
    if schema.JNull? {
      return Failure(NullReference);
    }
    if !schema.JObject? {
      return Failure(NotAnObject);
    }
    var bodyType := Convert(factory, Get(schema.members, "embedded"));
    if bodyType.Failure? {
      return Failure(bodyType.error);
    }
    ghost var body := Outcome(factory.types, bodyType);
    var name := Text(typeName) + "@" + Text(version);
    var resourceType := factory.Create(ResourceType(name, Unknown, bodyType.value, {}));
    var resources := map[name := CrossFileTypeReference(TypesFile, resourceType)];
    r := Success(Catalog(factory.types, TypeIndex(resources, map[], Settings)));
    assert r == Assemble(body, name);
  }

  /** What a generated catalog holds: an acyclic node list whose last node is the
      resource `type@version` with no flags and unknown scope, whose body is the node
      created just before it; the index maps exactly that name to the resource's
      position in types.json. */
  lemma GeneratedCatalog(input: JsonNode)
    requires Generated(input).Success?
    ensures var c := Generated(input).value;
            var ms := input.members;
            var last := |c.types| - 1;
            && |c.types| >= 2
            && c.types[..last] == Converted(Get(Get(ms, "schema").members, "embedded"), []).types
            && Acyclic(c.types)
            && c.types[last] == ResourceType(Text(Get(ms, "type")) + "@" + Text(Get(ms, "version")), Unknown, last - 1, {})
            && c.index.resources == map[c.types[last].name := CrossFileTypeReference("types.json", last)]
            && c.index.resourceFunctions == map[]
            && c.index.settings == TypeSettings("Testing", "0.0.1", false, None)
  {
    var schema := Get(input.members, "schema");
    var body := Converted(Get(schema.members, "embedded"), []);
    var name := Text(Get(input.members, "type")) + "@" + Text(Get(input.members, "version"));
    assert Generated(input) == Assemble(body, name);
    AssembledCatalog(body, name);
  }

  /** The node a successful conversion returns: the kind its `type` asks for; an array
      node's item is the node created just before it; an object node is named by its
      title (or "object") and has exactly the schema's property keys, unique, each with
      no flags and no description. */
  lemma ConvertedNode(schema: JsonNode, types: seq<TypeNode>)
    requires Converted(schema, types).result.Success?
    ensures var o := Converted(schema, types);
            var n := o.types[o.result.value];
            && (Classify(schema).LeafShape? ==> n == Classify(schema).node)
            && (Classify(schema).ArrayShape? ==> n == ArrayType(o.result.value - 1))
            && (Classify(schema).ObjectShape? ==>
                  && n.ObjectType? && n.name == Classify(schema).title && n.additionalProperties == None
                  && Names(n.properties) == Keys(Classify(schema).properties)
                  && PlainProperties(n.properties) && DistinctNames(n.properties))
  {
    if Classify(schema).ObjectShape? {
      ConvertedPropertiesNames(Classify(schema).properties, types, []);
      assert Names([]) == [];
    }
  }

  /** The `type` dispatch: "integer" and "number" both give IntegerType, "string"
      StringType, "boolean" BooleanType, each a single new node; any other text is
      NotSupportedException and creates nothing. */
  lemma ConvertedPrimitive(ms: seq<JsonProperty>, types: seq<TypeNode>, t: string)
    requires Get(ms, "type") == JString(t)
    ensures t == "integer" || t == "number" ==> Converted(JObject(ms), types) == Outcome(types + [IntegerType], Success(|types|))
    ensures t == "string" ==> Converted(JObject(ms), types) == Outcome(types + [StringType], Success(|types|))
    ensures t == "boolean" ==> Converted(JObject(ms), types) == Outcome(types + [BooleanType], Success(|types|))
    ensures t != "object" && t != "array" && t != "integer" && t != "number" && t != "string" && t != "boolean" ==>
              Converted(JObject(ms), types) == Outcome(types, Failure(Unsupported(t)))
  {
  }

  /** The composite cases of the `type` dispatch: "object" with an object `properties`
      is an object shape titled by `title`, or "object" when there is none, over those
      properties; "object" with any other `properties` is PropertiesNotObject and
      creates nothing; "array" converts `items`. */
  lemma ClassifyComposite(ms: seq<JsonProperty>, types: seq<TypeNode>)
    ensures Get(ms, "type") == JString("object") && Get(ms, "properties").JObject? ==>
              Classify(JObject(ms)) == ObjectShape(if Get(ms, "title").JNull? then "object" else Text(Get(ms, "title")),
                                                   Get(ms, "properties").members)
    ensures Get(ms, "type") == JString("object") && !Get(ms, "properties").JObject? ==>
              Classify(JObject(ms)) == Invalid(PropertiesNotObject)
              && Converted(JObject(ms), types) == Outcome(types, Failure(PropertiesNotObject))
    ensures Get(ms, "type") == JString("array") ==> Classify(JObject(ms)) == ArrayShape(Get(ms, "items"))
  {
  }
}
