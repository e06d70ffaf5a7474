# Bicep and ARM sample logic, modelled in Dafny

The repository is a set of C# samples around the Bicep compiler and the Azure
Resource Manager (ARM) expression and type libraries. Most samples only wire up
those libraries. Five of them hold logic of their own, and this project models
that logic:

- **JSON Schema projection** (`get-arm-schema`). `ToJsonSchemaRecursive` turns a
  Bicep type graph into a JSON Schema fragment:
  - string, string-literal and union types become `{"type":"string"}`; integers
    `number`; booleans `boolean`;
  - arrays carry their item schema;
  - objects list their writable properties, and `required` names the writable
    Required ones;
  - any other kind is a `NotImplementedException`.

  The type graph is an arena `seq<TypeNode>` and references are positions. The
  node kinds and property flags are shared in module `BicepTypes`. There is no
  cycle guard in the source, so the model takes an acyclic arena as a
  precondition: every reference in node `i` is below `i` (`Acyclic`). This is the
  shape the type generator builds.
- **Type generation** (`bicep-type-generation`). `Convert` walks a JSON schema and
  appends one node per schema node to a `TypeFactory`, children first. `Main` then
  adds a resource node named `type@version` and builds the index.
  - `TypeFactory` is a class whose node list only grows. `Create` returns the new
    position, which is also what `GetReference`/`GetIndex` give for that node.
    This is an assumption about the Azure.Bicep.Types library, which is not part
    of this model.
  - `Convert` is a recursive method proved against the function `Converted`.
  - `Generate` is `Main` without its file I/O, proved against `Generated`.
  - Module `SchemaRoundTrip` composes the two samples: a converted schema projects
    back to a fixed `Expected` schema.
- **Syntax-tree printer** (`bicep-print-syntax-tree.cs`).
  - `SyntaxCollectorVisitor` is the class `SyntaxCollector`. Its list and its
    `parent`/`depth` fields are updated around each recursive visit.
  - `GetAncestors` and `GetSyntaxLoggingString` are loops proved against the
    functions `Ancestors` and `Line`.
  - `WriteSyntax` returns the lines it would write.
  - `EscapeWhitespace` is three successive `Replace` calls. It is proved equal to
    a per-character escape.
- **Resource-settings rewrite** (`bicep-modify-api.cs`). The callback given to
  `CallbackRewriter.Rewrite` works on a simplified syntax datatype. On the resource
  `functionAppAppSettings` with an object body, the nested `properties` object
  gains `SETTING_3_FROM_US: 'some value'`. Everything else is returned unchanged.
- **Custom `reverse` function** (`arm-custom-expression.cs`).
  - `Evaluate` copies the argument's UTF-16 code units (a .NET `char` is one code
    unit) into a fresh array and reverses it in place. A character above U+FFFF is
    two code units, a surrogate pair, and the reversal splits and swaps them;
    `SurrogatePairSplit` shows it on one input, and `ReverseBasic` shows that on
    text without such characters the result is the reversed text.
  - `TryGetFunctionEvaluator` looks up the name in a one-entry table, with ordinal
    case-insensitive matching.

Shared helpers: `Wrappers` (Option, Result) and `Sequences` (`Reversed`, used both
by `reverse` and by the printer's ancestor order, and `Associative`).

## Model

| member | source | states |
|---|---|---|
| ArmSchema.ToJsonSchema | csharp/get-arm-schema/Program.cs:20-65 | A node projects successfully exactly when it and everything reached through array items and writable properties is a handled kind (`Projectable`). The first member is `type`: "string" for string, literal and union; "number" for integer; "boolean"; "array"; "object". Scalar kinds have no other member. Any other kind fails with NotImplemented and the node's type name. An array is exactly type plus `items`, the item's projection. An object has the three-member shape `IsObjectSchema`. |
| ArmSchema.ProjectProperties | csharp/get-arm-schema/Program.cs:54 | The properties' projection succeeds exactly when every listed property's type projects. Its keys are the property names in order. Each value is that property's own projection. |
| ArmSchema.Writable | csharp/get-arm-schema/Program.cs:51 | The `Where` dropping ReadOnly properties, in order. Its meaning is stated by `WritableIsFilter` and `WritableNames`. |
| ArmSchema.RequiredWritable | csharp/get-arm-schema/Program.cs:51-52 | The second `Where`, keeping the writable Required properties, in order. Its meaning is stated by `RequiredIsFilter`, `RequiredNames` and `RequiredIsSubsequence`. |
| ArmSchema.WritableIsFilter | csharp/get-arm-schema/Program.cs:51 | A property is kept by the writable filter exactly when it is a property of the object without the ReadOnly flag. |
| ArmSchema.RequiredIsFilter | csharp/get-arm-schema/Program.cs:52 | A property is in the required list exactly when it is neither ReadOnly nor lacking Required. |
| ArmSchema.WritableNames | csharp/get-arm-schema/Program.cs:51-54 | A name is a key of `properties` exactly when some property of that name is not ReadOnly. |
| ArmSchema.RequiredNames | csharp/get-arm-schema/Program.cs:51-59 | A name is listed in `required` exactly when some property of that name is Required and not ReadOnly. |
| ArmSchema.RequiredIsSubsequence | csharp/get-arm-schema/Program.cs:51-59 | `required` is a subsequence of the `properties` keys, and so keeps their order. |
| ArmSchema.ReadOnlyExcluded | csharp/get-arm-schema/Program.cs:51-59 | With unique names, a ReadOnly property appears neither among the keys of `properties` nor in `required`, even when it is also Required. |
| ArmSchema.WritableProjectable | csharp/get-arm-schema/Program.cs:51-54 | Every writable property projects exactly when every property that passes the writable filter projects. Projection never touches ReadOnly properties. |
| ArmSchema.ProjectionStable | csharp/get-arm-schema/Program.cs:20-65 | Appending nodes to an acyclic arena does not change the projection of any node already in it. |
| ArmSchema.ProjectionStablePrefix | csharp/get-arm-schema/Program.cs:20-65 | The projection of a node is the same in any acyclic arena that extends the one it was created in. |
| ArmSchema.ProjectPropertiesStable | csharp/get-arm-schema/Program.cs:54 | Appending nodes does not change a list of properties' projection. |
| ArmSchema.ArrayProjection | csharp/get-arm-schema/Program.cs:44-49 | An array node appended after its item type projects to `{"type":"array","items":P}`, where P is the item's projection. |
| ArmSchema.ObjectProjection | csharp/get-arm-schema/Program.cs:50-60 | An object whose writable properties project to `members` projects to `type` "object", `properties` = members, and `required` = the names of the writable Required properties. |
| ArmSchema.FooBarExample | csharp/get-arm-schema/Program.cs:50-60 | An object `Foo` with one Required string property `bar` projects to an object schema with `bar` of type string, and `required` = ["bar"]. |
| TypeGeneration.Classify | csharp/bicep-type-generation/Program.cs:57-76 | The `switch` on `type`: a sub-schema to convert is always smaller than the schema. What each case yields, in terms of the input, is stated by `ClassifyComposite` (object and array), `ConvertedPrimitive` (scalars and unsupported text) and `ConvertedNode` (the node created). |
| TypeGeneration.Converted | csharp/bicep-type-generation/Program.cs:55-78 | Conversion only appends: the old node list is a prefix of the new one, and acyclicity is kept. On success it returns the last node appended, and it appends exactly one node per schema node. |
| TypeGeneration.ConvertedProperties | csharp/bicep-type-generation/Program.cs:61-62 | The property loop only appends nodes and keeps acyclicity. On success it appends one node per schema node of the property values. Every property reference is below the object's own future position. |
| TypeGeneration.ConvertedPropertiesNames | csharp/bicep-type-generation/Program.cs:61-62 | The properties built extend those done before. Their names are the schema's keys in schema order. They carry no flags and no description. They stay unique when they were unique before. |
| TypeGeneration.ConvertedPropertiesKeepDone | csharp/bicep-type-generation/Program.cs:61-62 | The properties done before the loop are a prefix of its result. |
| TypeGeneration.ConvertedPropertiesStep | csharp/bicep-type-generation/Program.cs:61-62 | When the whole loop succeeds, its first property converts, its key is new, and the loop continues from that property added. |
| TypeGeneration.ConvertedNode | csharp/bicep-type-generation/Program.cs:59-74 | The node a successful conversion returns is the kind the schema's `type` asks for. An array node's item is the node created just before it. An object node is named by the shape's title, which `ClassifyComposite` gives as `title` (or "object" when it is missing), and has exactly the schema's property keys, unique, each with no flags and no description. |
| TypeGeneration.ConvertedPrimitive | csharp/bicep-type-generation/Program.cs:68-76 | "integer" and "number" both append one IntegerType, "string" one StringType, and "boolean" one BooleanType. Any other `type` text fails with NotSupported and appends nothing. |
| TypeGeneration.ClassifyComposite | csharp/bicep-type-generation/Program.cs:59-66 | `type` "object" with an object `properties` is the object shape titled by `title`, or "object" when it is missing, over those properties. `type` "object" with any other `properties` fails with PropertiesNotObject and appends nothing. `type` "array" converts `items`. |
| TypeGeneration.TypeFactory.constructor | csharp/bicep-type-generation/Program.cs:12 | A factory starts with the given node list. |
| TypeGeneration.TypeFactory.Create | csharp/bicep-type-generation/Program.cs:64-74 | Create appends the node and returns its position; nothing else changes. |
| TypeGeneration.Convert | csharp/bicep-type-generation/Program.cs:55-78 | The factory's new node list and the result are exactly those of `Converted` on the old list. This includes the nodes left behind by a failure. |
| TypeGeneration.Generate | csharp/bicep-type-generation/Program.cs:10-42 | Main without file I/O yields exactly `Generated(input)`, including each null or non-object failure. |
| TypeGeneration.Generated | csharp/bicep-type-generation/Program.cs:10-42 | `Main` as a function of the parsed input. Its meaning is stated by `GeneratedCatalog`. |
| TypeGeneration.AssembledCatalog | csharp/bicep-type-generation/Program.cs:20-42 | After a successful body conversion, the nodes before the last are exactly the conversion's. The last node is the resource with unknown scope and no flags, whose body is the node just before it. The list stays acyclic. The index maps the resource name alone to ("types.json", that position) and has no resource functions. The settings are Testing 0.0.1, not a singleton. |
| TypeGeneration.GeneratedCatalog | csharp/bicep-type-generation/Program.cs:15-42 | A generated catalog's last node is the resource called `type + "@" + version`. The nodes before it are exactly those the conversion of `schema.embedded` created in an empty factory. Its body is that conversion's result, one position below it. The index maps exactly that name to ("types.json", the resource's position). |
| SchemaRoundTrip.ConvertThenProject | csharp/bicep-type-generation/Program.cs:55-78 | Projecting the node a successful conversion returns gives `Expected(schema)`. That is the same tree of types ("integer" read as "number"), without titles, and with an empty `required` everywhere. |
| SchemaRoundTrip.ConvertThenProjectIn | csharp/bicep-type-generation/Program.cs:55-78 | The round trip holds in any acyclic arena that extends the conversion's, so later nodes do not disturb it. |
| SchemaRoundTrip.PropertiesThenProject | csharp/bicep-type-generation/Program.cs:61-62 | The converted properties project to the schema's properties, key by key and in order, each value being `Expected` of the sub-schema. |
| SchemaRoundTrip.ObjectThenProject | csharp/get-arm-schema/Program.cs:50-60 | A converted object projects to type "object", its expected properties, and `required` = []. |
| SchemaRoundTrip.PlainFilters | csharp/get-arm-schema/Program.cs:51-52 | Properties with no flags are all writable and none is required. |
| SyntaxPrinter.SyntaxCollector.constructor | csharp/bicep-print-syntax-tree.cs:129-135 | A new collector has an empty list, no parent and depth 0. |
| SyntaxPrinter.SyntaxCollector.VisitInternal | csharp/bicep-print-syntax-tree.cs:145-156 | The list grows by exactly `Collect` of the node, at the current parent and depth and from the current length. It is the node first, then its children's items one level deeper with this node as their parent. `parent` and `depth` are restored on exit. |
| SyntaxPrinter.SyntaxCollector.VisitChildren | csharp/bicep-print-syntax-tree.cs:153 | Visiting the children in order appends `CollectAll` of them and leaves `parent` and `depth` as they were. |
| SyntaxPrinter.SyntaxCollector.Build | csharp/bicep-print-syntax-tree.cs:137-143 | Build returns exactly `Collect(syntax, None, 0, 0)`. |
| SyntaxPrinter.Collect | csharp/bicep-print-syntax-tree.cs:145-156 | The items one visit appends. Its meaning is stated by `CollectPreOrder`, `CollectLinked` and `BuildShape`. |
| SyntaxPrinter.CollectPreOrder | csharp/bicep-print-syntax-tree.cs:145-156 | The nodes of the collected items, in list order, are the tree's nodes in pre-order. |
| SyntaxPrinter.CollectLinked | csharp/bicep-print-syntax-tree.cs:147-152 | A subtree's first item is its root with the given parent and depth. Every later item has an earlier item of the same subtree as parent, one level shallower, holding it as a child. |
| SyntaxPrinter.CollectAllLinked | csharp/bicep-print-syntax-tree.cs:147-155 | Each item of a run of siblings is either one of the siblings, at the given parent and depth, or linked to an earlier item of the run. |
| SyntaxPrinter.BuildShape | csharp/bicep-print-syntax-tree.cs:137-155 | Build yields one item per node, in pre-order. The first is the root, with no parent and depth 0. Every other item's parent is earlier, has depth one less, and holds the item's node among its children. |
| SyntaxPrinter.BuildLinks | csharp/bicep-print-syntax-tree.cs:147-152 | Build's list satisfies `ParentLinks`. |
| SyntaxPrinter.GetAncestors | csharp/bicep-print-syntax-tree.cs:118-126 | The loop yields exactly `Ancestors`: the parent, then each further parent up to the root. |
| SyntaxPrinter.AncestorsDepth | csharp/bicep-print-syntax-tree.cs:118-126 | An item has exactly Depth ancestors. The m-th is m + 1 levels up and earlier in the list. The first is the parent and the last is the root. |
| SyntaxPrinter.LastWithParent | csharp/bicep-print-syntax-tree.cs:65 | An item is the last element of its parent's lookup group exactly when no later item has that parent. |
| SyntaxPrinter.IsLastChildIff | csharp/bicep-print-syntax-tree.cs:92 | An item is the last child of its parent exactly when no later item in the list has the same parent. |
| SyntaxPrinter.SegmentsAt | csharp/bicep-print-syntax-tree.cs:80-88 | The drawn segments take two characters per ancestor, and the m-th pair is that ancestor's segment. |
| SyntaxPrinter.GraphPrefixShape | csharp/bicep-print-syntax-tree.cs:80-88 | The prefix has 2·Depth characters. Pair m belongs to the ancestor at depth m + 1: "  " when that ancestor is the last child of its parent, "\| " otherwise. |
| SyntaxPrinter.GraphPrefixConnector | csharp/bicep-print-syntax-tree.cs:80-98 | The prefix has 2·Depth characters. It is empty for the root. Otherwise it ends with "└─" when the item is the last child of its parent, and "├─" otherwise. |
| SyntaxPrinter.GraphPrefix | csharp/bicep-print-syntax-tree.cs:80-98 | One segment per drawn ancestor, then the connector. Its meaning is stated by `GraphPrefixShape` and `GraphPrefixConnector`. |
| SyntaxPrinter.Label | csharp/bicep-print-syntax-tree.cs:100-104 | `Token(type) \|escaped text\|` for a token, the syntax class name otherwise. |
| SyntaxPrinter.Line | csharp/bicep-print-syntax-tree.cs:82-104 | The graph prefix followed by the label. Its meaning is stated by `GraphPrefixShape`, `GraphPrefixConnector` and `RootLine`. |
| SyntaxPrinter.GetSyntaxLoggingString | csharp/bicep-print-syntax-tree.cs:73-105 | The loop builds exactly `Line`: the graph prefix, then `Token(type) \|escaped text\|` for a token or the syntax kind for any other node. |
| SyntaxPrinter.RootLine | csharp/bicep-print-syntax-tree.cs:90-104 | The first line written is the root's label with no prefix. |
| SyntaxPrinter.WriteSyntax | csharp/bicep-print-syntax-tree.cs:62-71 | Exactly one line per node of the tree, in Build's order; line k is `Line` of item k. |
| SyntaxPrinter.WriteItems | csharp/bicep-print-syntax-tree.cs:67-70 | The loop over the items produces `Lines` of all the items: the line of each item, in list order. |
| SyntaxPrinter.LinesAt | csharp/bicep-print-syntax-tree.cs:67-70 | The first n lines are n lines, and line m is the line of item m. |
| SyntaxPrinter.LinesAll | csharp/bicep-print-syntax-tree.cs:67-70 | There is one line per item, and line k is the line of item k. |
| SyntaxPrinter.EscapeWhitespace | csharp/bicep-print-syntax-tree.cs:107-111 | The three `Replace` calls in order. Its meaning is stated by `EscapeIsPerCharacter`, `EscapeRemovesWhitespace` and `EscapeIdentity`. |
| SyntaxPrinter.EscapeIsPerCharacter | csharp/bicep-print-syntax-tree.cs:107-111 | The three successive replacements equal escaping each character on its own: CR as `\r`, LF as `\n`, tab as `\t`, anything else unchanged. |
| SyntaxPrinter.EscapeOne | csharp/bicep-print-syntax-tree.cs:107-111 | A single character escapes to its own escape. |
| SyntaxPrinter.ReplaceConcat | csharp/bicep-print-syntax-tree.cs:108-111 | Replacing a character distributes over concatenation. |
| SyntaxPrinter.ReplaceAbsent | csharp/bicep-print-syntax-tree.cs:108-111 | Replacing a character the text does not hold leaves the text unchanged. |
| SyntaxPrinter.EscapeRemovesWhitespace | csharp/bicep-print-syntax-tree.cs:107-111 | The escaped text holds no CR, LF or tab. |
| SyntaxPrinter.EscapeIdentity | csharp/bicep-print-syntax-tree.cs:107-111 | Text without CR, LF or tab is unchanged by escaping. |
| ModifyApi.Callback | csharp/bicep-modify-api.cs:26-63 | Any node that is not a declaration named functionAppAppSettings with an object body comes back unchanged. A resource declaration stays a resource declaration, and nothing else becomes one. |
| ModifyApi.CallbackRebuilds | csharp/bicep-modify-api.cs:32-59 | The rebuilt resource carries over leading nodes, keyword, name, type, existing keyword, assignment and newlines. Its object keeps both braces. Its children are the old object's properties (not its other children), in order, each rewritten. The result is again a target. |
| ModifyApi.Properties | csharp/bicep-modify-api.cs:40 | Properties yields property nodes only, and no more of them than there are children. |
| ModifyApi.PropertiesMembers | csharp/bicep-modify-api.cs:40 | A node is among Properties exactly when it is a child and a property. |
| ModifyApi.PropertiesConcat | csharp/bicep-modify-api.cs:40 | Properties distributes over concatenation, so it keeps the children's order. |
| ModifyApi.PropertiesOfProperties | csharp/bicep-modify-api.cs:40 | A list made only of properties is kept whole. |
| ModifyApi.RewriteProperty | csharp/bicep-modify-api.cs:41-58 | The lambda given to `Select`. Its meaning is stated by `RewriteCases`. |
| ModifyApi.RewriteKeepsKeys | csharp/bicep-modify-api.cs:40-59 | The rewrite neither adds, drops, renames nor reorders the top-level properties: their keys are the same, in order. |
| ModifyApi.RewriteCases | csharp/bicep-modify-api.cs:42-58 | A property not named `properties`, or whose value is not an object, is kept as is. `properties` with an object value keeps its key, colon and braces. Its children are the old ones followed by exactly one new `SETTING_3_FROM_US: 'some value'`. |
| ModifyApi.CallbackTwice | csharp/bicep-modify-api.cs:44-55 | The callback is not idempotent. Applying it twice leaves two copies of the new setting at the end of `properties`, so the second result differs from the first. |
| ModifyApi.SampleRewrite | csharp/bicep-modify-api.cs:26-63 | Take the sample declaration, with newline tokens between properties. The rebuilt body holds `parent`, `name` and `properties` alone. `properties` holds its old children followed by the new setting. |
| CustomExpression.Units | csharp/arm-custom-expression.cs:35 | A character below U+10000 is one code unit, any other two. |
| CustomExpression.Utf16 | csharp/arm-custom-expression.cs:35 | The code units `ToCharArray` yields: each character's units in turn. Its meaning is stated by `Utf16Basic` and `SurrogatePairSplit`. |
| CustomExpression.Utf16Basic | csharp/arm-custom-expression.cs:35 | Text with no character above U+FFFF has exactly one code unit per character, equal to it. |
| CustomExpression.BasicAt | csharp/arm-custom-expression.cs:35 | Text is single-unit exactly when every character is below U+10000. |
| CustomExpression.ReverseInPlace | csharp/arm-custom-expression.cs:36 | The array of code units afterwards holds its old contents reversed. |
| CustomExpression.Evaluate | csharp/arm-custom-expression.cs:30-38 | The result is the argument's code units reversed. It has the same length, and unit k is input unit n-1-k. |
| CustomExpression.ReverseBasic | csharp/arm-custom-expression.cs:35-37 | On text with no character above U+FFFF, the reversed code units are the code units of the reversed text. |
| CustomExpression.SurrogatePairSplit | csharp/arm-custom-expression.cs:35-37 | "a" then U+1F600 is the units 0x61, 0xD83D, 0xDE00. Reversed, they come out low surrogate first (0xDE00, 0xD83D, 0x61), which differs from the code units of the reversed text. |
| CustomExpression.HelloWorld | csharp/arm-custom-expression.cs:14-37 | "Hello World!" has one code unit per character and reverses to "!dlroW olleH". With `ReverseBasic`, those are the code units `reverse` returns for the sample expression once `concat` is evaluated. |
| CustomExpression.Lookup | csharp/arm-custom-expression.cs:43-48 | The table lookup finds a function exactly when some function's name equals the key ignoring case. What it finds is such a function from the table. |
| CustomExpression.TryGetFunctionEvaluator | csharp/arm-custom-expression.cs:47-48 | An evaluator is returned exactly when the name equals "reverse" under ordinal case-insensitive comparison. It is ReverseFunction's; every other name gets none. |
| CustomExpression.LookupCases | csharp/arm-custom-expression.cs:43-48 | "reverse", "REVERSE" and "Reverse" find ReverseFunction; "revers", "reverse " and "concat" find nothing. |
| CustomExpression.EqualsIgnoreCase | csharp/arm-custom-expression.cs:43-45 | Ordinal case-insensitive equality, ASCII letters folded. Its meaning is stated by `IgnoreCaseEquivalence`, `LookupCases` and `TryGetFunctionEvaluator`. |
| CustomExpression.IgnoreCaseEquivalence | csharp/arm-custom-expression.cs:43-45 | Case-insensitive equality is reflexive, symmetric and transitive, so it is a valid dictionary key comparison. |
| Sequences.Reversed | csharp/arm-custom-expression.cs:35-37 | Reversal keeps the length and puts element n-1-k at position k. |
| Sequences.ReversedInvolution | csharp/arm-custom-expression.cs:35-37 | Reversing twice gives back the original sequence of code units. |

## Left out

- File reading and writing, and JSON parsing in type generation, are not modelled. The model starts from a parsed `JsonNode`, in which a JSON null and a missing member are both `JNull`.
- `TypeSerializer.Serialize`/`SerializeIndex` write `types.json`/`index.json` through a foreign library. The model stops at the node list and the `TypeIndex` value, so no serialization round trip is stated.
- `Text` (the sample's `ToString()` of a JSON node) renders an array or object title or `type` as "[...]"/"{...}", not as the indented JSON `ToString()` writes. For a number it gives the literal as written. `Text` is used for the object `title`, for the `type` text of the dispatch, and for both parts of Main's resource name `type@version`. So a non-string title, `type`, resource `type` or `version` (such as `"version": {"v": 1}`) gives a different text in the model than in the program.
- Type generation fails with one of five error values where the source throws. Null or missing nodes give `NullReference`. Indexing a non-object gives `NotAnObject`. `properties` that is not an object gives `PropertiesNotObject`. `DuplicateKey` covers a repeated key inside `properties`. The program can never meet one: a parsed `JsonObject` is a dictionary with unique keys, and JSON reading rejects a repeated key before any conversion. The model's `JObject` is a plain list of members, so it can hold such input, which the program cannot; `Get` then takes the first match. Any other `type` gives `Unsupported`. Exception messages are not modelled.
- The constructor arguments Main passes as `null` are not modelled: the third and sixth `ResourceType` arguments (read-only scopes and resource functions) and the fourth `TypeIndex` argument (Program.cs lines 23, 26 and 42). `ResourceType` and `TypeIndex` have no fields for them.
- `TypeFactory`, `GetReference` and `GetIndex` come from the Azure.Bicep.Types library and are not part of this model. Node identity is the node's position in the factory, and a reference is that position.
- `RuntimeHelpers.EnsureSufficientExecutionStack` is a runtime stack check; recursion depth is not modelled.
- ArmSchema.ToJsonSchema: the source has no cycle guard and loops on a cyclic graph. The model requires an acyclic arena and states nothing for cyclic ones.
- ArmSchema.ToJsonSchema: a C# object type holds its properties in a dictionary, so names are unique. The arena does not enforce this. `ReadOnlyExcluded` assumes it, and elsewhere duplicate names are projected as they come.
- The syntax tree is a rose tree of tokens (type and text) and nodes (the syntax class name as a string with the children `CstVisitor` visits, in order).
  - Which children each Bicep syntax class has is not modelled.
  - `base.VisitInternal` is assumed to visit the children in order.
- A `SyntaxItem`'s parent is the position of the parent's item in the list. C# records compare parents by value but syntax nodes by reference, which this matches.
- The lookup `ToLookup(x => x.Parent)` is recomputed from the list for each query (`WithParent`), not built once.
- The `TextWriter` is modelled as the sequence of lines written.
- The `Main` of the print sample is not modelled: in-memory files, the compilation per model and the console writes. The `AddBicepCore` dependency-injection registrations are left out too.
- SyntaxPrinter.GetAncestors works on the list and an item's position, and requires `ParentLinks`, which every list Build returns satisfies (`BuildLinks`).
- ModifyApi: `NameEquals` and `HasPropertyName` are modelled as exact text equality of an identifier name (or a plain string key). The library's own rules are not part of this model. Only the node kinds the callback looks at are distinguished.
- `SyntaxFactory.CreateObjectProperty` is modelled as a property with an identifier key, a colon token and a string literal, without trivia.
- `CallbackRewriter`'s traversal of the whole tree and `PrettyPrinterV2` output are not modelled, only the callback.
- CustomExpression: `ExpressionEvaluationContext`, expression parsing, `concat` and the built-in function table are not modelled. `HelloWorld` takes `concat`'s result as given.
- CustomExpression.EqualsIgnoreCase: ordinal case-insensitive comparison is modelled for ASCII letters only; the upper-case mapping of other Unicode characters is not modelled. This could change a lookup: U+017F (ſ) has the simple upper-case mapping 'S', so .NET's `OrdinalIgnoreCase` may find `ReverseFunction` under "reverſe", where the model finds nothing.
- CustomExpression.Evaluate: `functionName` and the positional metadata do not affect the result and are not used. The argument and the result are sequences of UTF-16 code units, as a .NET string is, not expression objects. `Utf16` encodes a Dafny string (whose characters are Unicode scalar values) into them.
- CustomExpression.TryGetFunctionEvaluator: the function name is a Dafny string of scalar values, not of UTF-16 code units. With a case mapping that only touches ASCII letters, the two comparisons agree.
