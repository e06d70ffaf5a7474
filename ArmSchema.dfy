/** Projection of a Bicep type graph to a JSON Schema fragment
    (ToJsonSchemaRecursive in get-arm-schema/Program.cs). */
module ArmSchema {
  import opened Wrappers
  import opened BicepTypes

  /** The JSON values the projection builds (System.Text.Json.Nodes); an object keeps
      its members in insertion order. */
  datatype Json = JString(s: string) | JArray(items: seq<Json>) | JObject(members: seq<JsonMember>)

  datatype JsonMember = JsonMember(key: string, value: Json)

  /** NotImplementedException, whose message is the runtime class name of the node. */
  datatype SchemaError = NotImplemented(typeName: string)

  function Keys(ms: seq<JsonMember>): (r: seq<string>)
    ensures |r| == |ms| && forall k :: 0 <= k < |ms| ==> r[k] == ms[k].key
  {
    seq(|ms|, k requires 0 <= k < |ms| => ms[k].key)
  }

  /** A schema that carries nothing but its `type`. */
  function TypeOnly(t: string): Json
  {
    JObject([JsonMember("type", JString(t))])
  }

  /** The value of the schema's `type` member for each kind the projection handles. */
  function SchemaTypeName(n: TypeNode): Option<string>
  {
    match n
    case StringType => Some("string")
    case StringLiteralType(_) => Some("string")
    case UnionType(_) => Some("string")
    case IntegerType => Some("number")
    case BooleanType => Some("boolean")
    case ArrayType(_) => Some("array")
    case ObjectType(_, _, _) => Some("object")
    case _ => None
  }

  /** The kinds whose schema is their `type` alone. */
  predicate IsScalar(n: TypeNode)
  {
    n.StringType? || n.StringLiteralType? || n.UnionType? || n.IntegerType? || n.BooleanType?
  }

  /** The properties without the ReadOnly flag, in order (the `Where` on line 51). */
  function Writable(ps: seq<NamedProperty>): seq<NamedProperty>
  {
    if ps == [] then []
    else if ReadOnly in ps[0].prop.flags then Writable(ps[1..])
    else [ps[0]] + Writable(ps[1..])
  }

  /** The writable properties that carry the Required flag (line 52). */
  function RequiredWritable(ps: seq<NamedProperty>): seq<NamedProperty>
  {
    if ps == [] then []
    else if ReadOnly in ps[0].prop.flags || Required !in ps[0].prop.flags then RequiredWritable(ps[1..])
    else [ps[0]] + RequiredWritable(ps[1..])
  }

  function StringValues(ns: seq<string>): (r: seq<Json>)
    ensures |r| == |ns| && forall k :: 0 <= k < |ns| ==> r[k] == JString(ns[k])
  {
    seq(|ns|, k requires 0 <= k < |ns| => JString(ns[k]))
  }

  /** Reference definition of success: the node's kind is handled, and so is every node
      reached through an array item or a writable property. Read-only properties and
      union members are never visited. */
  ghost predicate Projectable(arena: seq<TypeNode>, i: nat)
    requires Acyclic(arena) && i < |arena|
    decreases i
  {
    assert RefsBelow(arena[i], i);
    match arena[i]
    case StringType => true
    case StringLiteralType(_) => true
    case UnionType(_) => true
    case IntegerType => true
    case BooleanType => true
    case ArrayType(t) => Projectable(arena, t)
    case ObjectType(_, ps, _) =>
      forall k :: 0 <= k < |ps| && ReadOnly !in ps[k].prop.flags ==> Projectable(arena, ps[k].prop.typeRef)
    case _ => false
  }

  /** The shape of an object's schema: exactly `type`, `properties` and `required`, in
      that order; the property keys are the writable property names, and `required` the
      names of the writable Required properties. */
  ghost predicate IsObjectSchema(ps: seq<NamedProperty>, j: Json)
  {
    && j.JObject?
    && |j.members| == 3
    && j.members[0] == JsonMember("type", JString("object"))
    && j.members[1].key == "properties"
    && j.members[1].value.JObject?
    && Keys(j.members[1].value.members) == Names(Writable(ps))
    && j.members[2] == JsonMember("required", JArray(StringValues(Names(RequiredWritable(ps)))))
  }

  /** ToJsonSchemaRecursive on the node at position `i`. */
  function ToJsonSchema(arena: seq<TypeNode>, i: nat): (r: Result<Json, SchemaError>)
    requires Acyclic(arena) && i < |arena|
    decreases i, 1
    ensures r.Success? <==> Projectable(arena, i)
    ensures r.Success? ==> r.value.JObject? && |r.value.members| >= 1
                           && r.value.members[0].key == "type" && r.value.members[0].value.JString?
                           && Some(r.value.members[0].value.s) == SchemaTypeName(arena[i])
    ensures r.Success? && IsScalar(arena[i]) ==> |r.value.members| == 1
    ensures SchemaTypeName(arena[i]).None? ==> r == Failure(NotImplemented(TypeName(arena[i])))
    ensures r.Success? && arena[i].ArrayType? ==>
              r.value.members == [JsonMember("type", JString("array")),
                                  JsonMember("items", ToJsonSchema(arena, arena[i].itemType).value)]
    ensures r.Success? && arena[i].ObjectType? ==> IsObjectSchema(arena[i].properties, r.value)
  {
    assert RefsBelow(arena[i], i);
    match arena[i]
    case StringLiteralType(_) => Success(TypeOnly("string"))
    case StringType => Success(TypeOnly("string"))
    case UnionType(_) => Success(TypeOnly("string"))
    case IntegerType => Success(TypeOnly("number"))
    case BooleanType => Success(TypeOnly("boolean"))
    case ArrayType(t) =>
      var items := ToJsonSchema(arena, t);
      if items.Failure? then Failure(items.error)
      else Success(JObject([JsonMember("type", JString("array")), JsonMember("items", items.value)]))
    case ObjectType(_, ps, _) =>
      WritableRefsBelow(ps, i);
      var properties := ProjectProperties(arena, i, Writable(ps));
      WritableProjectable(arena, i, ps);
      if properties.Failure? then Failure(properties.error)
      else
        Success(JObject([
          JsonMember("type", JString("object")),
          JsonMember("properties", JObject(properties.value)),
          JsonMember("required", JArray(StringValues(Names(RequiredWritable(ps)))))]))
    case _ => Failure(NotImplemented(TypeName(arena[i])))
  }

  /** The `Select` over the writable properties (line 54): each value is projected in
      order, and the first failure is the result. */
  function ProjectProperties(arena: seq<TypeNode>, owner: nat, ps: seq<NamedProperty>): (r: Result<seq<JsonMember>, SchemaError>)
    requires Acyclic(arena) && owner <= |arena| && PropertyRefsBelow(ps, owner)
    decreases owner, 0, |ps|
    ensures r.Success? <==> forall k :: 0 <= k < |ps| ==> Projectable(arena, ps[k].prop.typeRef)
    ensures r.Success? ==> Keys(r.value) == Names(ps)
    ensures r.Success? ==> forall k :: 0 <= k < |ps| ==> ToJsonSchema(arena, ps[k].prop.typeRef) == Success(r.value[k].value)
  {
    if ps == [] then Success([])
    else
      var head := ToJsonSchema(arena, ps[0].prop.typeRef);
      if head.Failure? then Failure(head.error)
      else
        var tail := ProjectProperties(arena, owner, ps[1..]);
        if tail.Failure? then Failure(tail.error)
        else Success([JsonMember(ps[0].name, head.value)] + tail.value)
  }

  lemma {:induction false} WritableIsFilter(ps: seq<NamedProperty>)
    ensures forall q :: q in Writable(ps) <==> q in ps && ReadOnly !in q.prop.flags
  {
    if ps != [] {
      WritableIsFilter(ps[1..]);
      assert ps == [ps[0]] + ps[1..];
    }
  }

  lemma WritableRefsBelow(ps: seq<NamedProperty>, bound: nat)
    requires PropertyRefsBelow(ps, bound)
    ensures PropertyRefsBelow(Writable(ps), bound)
  {
    WritableIsFilter(ps);
    forall k | 0 <= k < |Writable(ps)| ensures Writable(ps)[k].prop.typeRef < bound {
      assert Writable(ps)[k] in ps;
    }
  }

  /** Every property of `ps` has a projectable type. */
  ghost predicate AllProjectable(arena: seq<TypeNode>, i: nat, ps: seq<NamedProperty>)
    requires Acyclic(arena) && i < |arena| && PropertyRefsBelow(ps, i)
  {
    forall k :: 0 <= k < |ps| ==> Projectable(arena, ps[k].prop.typeRef)
  }

  /** Every writable property of `ps` has a projectable type. */
  ghost predicate WritableAllProjectable(arena: seq<TypeNode>, i: nat, ps: seq<NamedProperty>)
    requires Acyclic(arena) && i < |arena| && PropertyRefsBelow(ps, i)
  {
    forall k :: 0 <= k < |ps| && ReadOnly !in ps[k].prop.flags ==> Projectable(arena, ps[k].prop.typeRef)
  }

  lemma WritableProjectable(arena: seq<TypeNode>, i: nat, ps: seq<NamedProperty>)
    requires Acyclic(arena) && i < |arena| && PropertyRefsBelow(ps, i) && PropertyRefsBelow(Writable(ps), i)
    ensures AllProjectable(arena, i, Writable(ps)) <==> WritableAllProjectable(arena, i, ps)
  {
    if AllProjectable(arena, i, Writable(ps)) {
      WritableProjectableFrom(arena, i, ps);
    }
    if WritableAllProjectable(arena, i, ps) {
      WritableProjectableTo(arena, i, ps);
    }
  }

  lemma WritableProjectableFrom(arena: seq<TypeNode>, i: nat, ps: seq<NamedProperty>)
    requires Acyclic(arena) && i < |arena| && PropertyRefsBelow(ps, i) && PropertyRefsBelow(Writable(ps), i)
    requires AllProjectable(arena, i, Writable(ps))
    ensures WritableAllProjectable(arena, i, ps)
  {
    WritableIsFilter(ps);
    forall k | 0 <= k < |ps| && ReadOnly !in ps[k].prop.flags ensures Projectable(arena, ps[k].prop.typeRef) {
      assert ps[k] in Writable(ps);
      var j :| 0 <= j < |Writable(ps)| && Writable(ps)[j] == ps[k];
    }
  }

  lemma WritableProjectableTo(arena: seq<TypeNode>, i: nat, ps: seq<NamedProperty>)
    requires Acyclic(arena) && i < |arena| && PropertyRefsBelow(ps, i) && PropertyRefsBelow(Writable(ps), i)
    requires WritableAllProjectable(arena, i, ps)
    ensures AllProjectable(arena, i, Writable(ps))
  {
    WritableIsFilter(ps);
    forall k | 0 <= k < |Writable(ps)| ensures Projectable(arena, Writable(ps)[k].prop.typeRef) {
      assert Writable(ps)[k] in ps;
      var j :| 0 <= j < |ps| && ps[j] == Writable(ps)[k];
    }
  }

  /** `a` is obtained from `b` by deleting elements. */
  predicate IsSubsequence(a: seq<string>, b: seq<string>)
    decreases |b|
  {
    if a == [] then true
    else if b == [] then false
    else if a[0] == b[0] then IsSubsequence(a[1..], b[1..])
    else IsSubsequence(a, b[1..])
  }

  lemma {:induction false} RequiredIsFilter(ps: seq<NamedProperty>)
    ensures forall q :: q in RequiredWritable(ps) <==> q in ps && ReadOnly !in q.prop.flags && Required in q.prop.flags
  {
    if ps != [] {
      RequiredIsFilter(ps[1..]);
      assert ps == [ps[0]] + ps[1..];
    }
  }

  /** A name is a key of `properties` exactly when some property of that name is not
      ReadOnly. */
  lemma WritableNames(ps: seq<NamedProperty>, n: string)
    ensures n in Names(Writable(ps)) <==> exists k :: 0 <= k < |ps| && ps[k].name == n && ReadOnly !in ps[k].prop.flags
  {
    var w := Writable(ps);
    WritableIsFilter(ps);
    if n in Names(w) {
      var j :| 0 <= j < |w| && Names(w)[j] == n;
      assert w[j] in ps;
      var k :| 0 <= k < |ps| && ps[k] == w[j];
    }
    if exists k :: 0 <= k < |ps| && ps[k].name == n && ReadOnly !in ps[k].prop.flags {
      var k :| 0 <= k < |ps| && ps[k].name == n && ReadOnly !in ps[k].prop.flags;
      assert ps[k] in w;
      var j :| 0 <= j < |w| && w[j] == ps[k];
      assert Names(w)[j] == n;
    }
  }

  /** A name is listed in `required` exactly when some property of that name is
      Required and not ReadOnly. */
  lemma RequiredNames(ps: seq<NamedProperty>, n: string)
    ensures n in Names(RequiredWritable(ps)) <==>
            exists k :: 0 <= k < |ps| && ps[k].name == n && ReadOnly !in ps[k].prop.flags && Required in ps[k].prop.flags
  {
    var w := RequiredWritable(ps);
    RequiredIsFilter(ps);
    if n in Names(w) {
      var j :| 0 <= j < |w| && Names(w)[j] == n;
      assert w[j] in ps;
      var k :| 0 <= k < |ps| && ps[k] == w[j];
    }
    if exists k :: 0 <= k < |ps| && ps[k].name == n && ReadOnly !in ps[k].prop.flags && Required in ps[k].prop.flags {
      var k :| 0 <= k < |ps| && ps[k].name == n && ReadOnly !in ps[k].prop.flags && Required in ps[k].prop.flags;
      assert ps[k] in w;
      var j :| 0 <= j < |w| && w[j] == ps[k];
      assert Names(w)[j] == n;
    }
  }

  /** `required` keeps the order of `properties`: it is a subsequence of its keys. */
  lemma {:induction false} RequiredIsSubsequence(ps: seq<NamedProperty>)
    ensures IsSubsequence(Names(RequiredWritable(ps)), Names(Writable(ps)))
  {
    if ps != [] {
      RequiredIsSubsequence(ps[1..]);
      if ReadOnly !in ps[0].prop.flags {
        var w := Names(Writable(ps[1..]));
        assert Names(Writable(ps)) == [ps[0].name] + w;
        if Required in ps[0].prop.flags {
          assert Names(RequiredWritable(ps)) == [ps[0].name] + Names(RequiredWritable(ps[1..]));
        } else {
          SubsequenceCons(Names(RequiredWritable(ps[1..])), w, ps[0].name);
        }
      }
    }
  }

  lemma {:induction false} SubsequenceCons(a: seq<string>, b: seq<string>, x: string)
    requires IsSubsequence(a, b)
    ensures IsSubsequence(a, [x] + b)
    decreases |b|, 1
  {
    assert ([x] + b)[1..] == b;
    if a != [] && a[0] == x {
      SubsequenceTail(a, b);
    }
  }

  lemma {:induction false} SubsequenceTail(a: seq<string>, b: seq<string>)
    requires a != [] && IsSubsequence(a, b)
    ensures IsSubsequence(a[1..], b)
    decreases |b|, 0
  {
    assert b != [];
    assert [b[0]] + b[1..] == b;
    if a[0] == b[0] {
      SubsequenceCons(a[1..], b[1..], b[0]);
    } else {
      SubsequenceTail(a, b[1..]);
      SubsequenceCons(a[1..], b[1..], b[0]);
    }
  }

  /** With unique property names, a ReadOnly property leaves no trace in the schema:
      its name is neither a key of `properties` nor listed in `required`. */
  lemma ReadOnlyExcluded(ps: seq<NamedProperty>, k: nat)
    requires DistinctNames(ps) && k < |ps| && ReadOnly in ps[k].prop.flags
    ensures ps[k].name !in Names(Writable(ps))
    ensures ps[k].name !in Names(RequiredWritable(ps))
  {
    WritableNames(ps, ps[k].name);
    RequiredNames(ps, ps[k].name);
  }

  /** Appending nodes to an arena does not change the projection of any node already
      in it: a factory that only appends never alters an earlier schema. */
  lemma {:induction false} ProjectionStable(arena: seq<TypeNode>, more: seq<TypeNode>, i: nat)
    requires Acyclic(arena) && Acyclic(arena + more) && i < |arena|
    ensures ToJsonSchema(arena + more, i) == ToJsonSchema(arena, i)
    decreases i, 1
  {
    assert (arena + more)[i] == arena[i];
    assert RefsBelow(arena[i], i);
    match arena[i]
    case ArrayType(t) => ProjectionStable(arena, more, t);
    case ObjectType(_, ps, _) =>
      WritableRefsBelow(ps, i);
      ProjectPropertiesStable(arena, more, i, Writable(ps));
    case _ =>
  }

  /** The same, for an arena that extends another. */
  lemma ProjectionStablePrefix(arena: seq<TypeNode>, final: seq<TypeNode>, i: nat)
    requires Acyclic(arena) && Acyclic(final) && arena <= final && i < |arena|
    ensures ToJsonSchema(final, i) == ToJsonSchema(arena, i)
  {
    assert final == arena + final[|arena|..];
    ProjectionStable(arena, final[|arena|..], i);
  }

  lemma {:induction false} ProjectPropertiesStable(arena: seq<TypeNode>, more: seq<TypeNode>, owner: nat, ps: seq<NamedProperty>)
    requires Acyclic(arena) && Acyclic(arena + more) && owner <= |arena| && PropertyRefsBelow(ps, owner)
    ensures ProjectProperties(arena + more, owner, ps) == ProjectProperties(arena, owner, ps)
    decreases owner, 0, |ps|
  {
    if ps != [] {
      ProjectionStable(arena, more, ps[0].prop.typeRef);
      ProjectPropertiesStable(arena, more, owner, ps[1..]);
    }
  }

  /** A string node followed by an object `Foo` with one Required property `bar` of
      that string type. */
  lemma FooBarExample()
    ensures var arena := [StringType, ObjectType("Foo", [NamedProperty("bar", ObjectProperty(0, {Required}, None))], None)];
            Acyclic(arena) &&
            ToJsonSchema(arena, 1) == Success(JObject([
              JsonMember("type", JString("object")),
              JsonMember("properties", JObject([JsonMember("bar", TypeOnly("string"))])),
              JsonMember("required", JArray([JString("bar")]))]))
  {
    var ps := [NamedProperty("bar", ObjectProperty(0, {Required}, None))];
    var arena := [StringType, ObjectType("Foo", ps, None)];
    assert RefsBelow(arena[1], 1);
    assert Acyclic(arena);
    assert Writable(ps) == ps && RequiredWritable(ps) == ps by {
      assert ps[1..] == [];
    }
    assert ToJsonSchema(arena, 0) == Success(TypeOnly("string"));
    assert ProjectProperties(arena, 1, ps) == Success([JsonMember("bar", TypeOnly("string"))]) by {
      assert ps[1..] == [];
      assert ProjectProperties(arena, 1, []) == Success([]);
      assert ps[0].prop.typeRef == 0;
      assert ToJsonSchema(arena, ps[0].prop.typeRef) == Success(TypeOnly("string"));
      assert ProjectProperties(arena, 1, ps[1..]) == Success([]);
      assert [JsonMember("bar", TypeOnly("string"))] + [] == [JsonMember("bar", TypeOnly("string"))];
    }
    assert Names(ps) == ["bar"];
    assert StringValues(["bar"]) == [JString("bar")];
  }

  /** The schema of an array node appended after its item type. */
  lemma ArrayProjection(arena: seq<TypeNode>, t: nat, items: Json)
    requires Acyclic(arena) && Acyclic(arena + [ArrayType(t)]) && t < |arena|
    requires ToJsonSchema(arena, t) == Success(items)
    ensures ToJsonSchema(arena + [ArrayType(t)], |arena|) == Success(JObject([JsonMember("type", JString("array")), JsonMember("items", items)]))
  {
    ProjectionStable(arena, [ArrayType(t)], t);
    assert (arena + [ArrayType(t)])[|arena|] == ArrayType(t);
  }

  /** An object node's schema, given its writable properties' projection. */
  lemma ObjectProjection(arena: seq<TypeNode>, i: nat, members: seq<JsonMember>)
    requires Acyclic(arena) && i < |arena| && arena[i].ObjectType?
    requires PropertyRefsBelow(Writable(arena[i].properties), i)
    requires ProjectProperties(arena, i, Writable(arena[i].properties)) == Success(members)
    ensures ToJsonSchema(arena, i) == Success(JObject([
              JsonMember("type", JString("object")),
              JsonMember("properties", JObject(members)),
              JsonMember("required", JArray(StringValues(Names(RequiredWritable(arena[i].properties))))) ]))
  {
  }
}
