/** The type graph of Azure.Bicep.Types.Concrete, held in an arena: a node refers to
    another node by its position in the arena (a TypeReference), never directly. */
module BicepTypes {
  import opened Wrappers

  /** ObjectTypePropertyFlags; the flag value `None` is the empty set. */
  datatype PropertyFlag = Required | ReadOnly | WriteOnly | DeployTimeConstant | Identifier

  /** ObjectTypeProperty: the referenced type, the flags and the description. */
  datatype ObjectProperty = ObjectProperty(typeRef: nat, flags: set<PropertyFlag>, description: Option<string>)

  /** One entry of an object type's property dictionary, in dictionary order. */
  datatype NamedProperty = NamedProperty(name: string, prop: ObjectProperty)

  datatype ScopeType = Unknown | Tenant | ManagementGroup | Subscription | ResourceGroup | Extension

  datatype ResourceFlag = ReadOnlyResource | WriteOnlyResource

  /** The node kinds. The two samples only look at the kind and at the fields
      listed here; size limits, patterns and sensitivity markers are not modelled. */
  datatype TypeNode =
    | AnyType
    | NullType
    | BooleanType
    | IntegerType
    | StringType
    | StringLiteralType(value: string)
    | UnionType(elements: seq<nat>)
    | ArrayType(itemType: nat)
    | ObjectType(name: string, properties: seq<NamedProperty>, additionalProperties: Option<nat>)
    | DiscriminatedObjectType(name: string, discriminator: string, elements: seq<nat>)
    | ResourceType(name: string, scope: ScopeType, body: nat, flags: set<ResourceFlag>)

  /** The runtime class name of a node, as `type.GetType()` renders it. */
  function TypeName(n: TypeNode): string
  {
    match n
    case AnyType => "Azure.Bicep.Types.Concrete.AnyType"
    case NullType => "Azure.Bicep.Types.Concrete.NullType"
    case BooleanType => "Azure.Bicep.Types.Concrete.BooleanType"
    case IntegerType => "Azure.Bicep.Types.Concrete.IntegerType"
    case StringType => "Azure.Bicep.Types.Concrete.StringType"
    case StringLiteralType(_) => "Azure.Bicep.Types.Concrete.StringLiteralType"
    case UnionType(_) => "Azure.Bicep.Types.Concrete.UnionType"
    case ArrayType(_) => "Azure.Bicep.Types.Concrete.ArrayType"
    case ObjectType(_, _, _) => "Azure.Bicep.Types.Concrete.ObjectType"
    case DiscriminatedObjectType(_, _, _) => "Azure.Bicep.Types.Concrete.DiscriminatedObjectType"
    case ResourceType(_, _, _, _) => "Azure.Bicep.Types.Concrete.ResourceType"
  }

  predicate PropertyRefsBelow(ps: seq<NamedProperty>, bound: nat)
  {
    forall k :: 0 <= k < |ps| ==> ps[k].prop.typeRef < bound
  }

  /** Every reference embedded in `n` is smaller than `bound`. */
  predicate RefsBelow(n: TypeNode, bound: nat)
  {
    match n
    case UnionType(es) => forall k :: 0 <= k < |es| ==> es[k] < bound
    case ArrayType(t) => t < bound
    case ObjectType(_, ps, ap) => PropertyRefsBelow(ps, bound) && (ap.Some? ==> ap.value < bound)
    case DiscriminatedObjectType(_, _, es) => forall k :: 0 <= k < |es| ==> es[k] < bound
    case ResourceType(_, _, body, _) => body < bound
    case _ => true
  }

  /** Every node refers only to nodes created before it: the shape a bottom-up
      factory produces, and the condition under which walking the graph ends. */
  predicate Acyclic(arena: seq<TypeNode>)
  {
    forall i :: 0 <= i < |arena| ==> RefsBelow(arena[i], i)
  }

  /** The property names of an object type, in order. */
  function Names(ps: seq<NamedProperty>): (r: seq<string>)
    ensures |r| == |ps| && forall k :: 0 <= k < |ps| ==> r[k] == ps[k].name
  {
    seq(|ps|, k requires 0 <= k < |ps| => ps[k].name)
  }

  /** Dictionary keys are unique. */
  predicate DistinctNames(ps: seq<NamedProperty>)
  {
    forall j, k :: 0 <= j < k < |ps| ==> ps[j].name != ps[k].name
  }
}
