/** The rewrite callback of bicep-modify-api.cs: on the resource declaration named
    functionAppAppSettings whose body is an object, the nested `properties` object
    gains one more setting; every other node is returned as it is. The syntax is a
    simplified concrete syntax tree: only the node kinds the callback inspects or
    builds are distinguished. */
module ModifyApi {
  import opened Wrappers

  datatype Syntax =
    | ResourceDeclaration(leadingNodes: seq<Syntax>, keyword: Syntax, name: Syntax, resourceType: Syntax,
                          existingKeyword: Option<Syntax>, assignment: Syntax, newlines: seq<Syntax>,
                          value: Syntax)
    | ObjectSyntax(openBrace: Syntax, children: seq<Syntax>, closeBrace: Syntax)
    | ObjectProperty(key: Syntax, colon: Syntax, value: Syntax)
    | Identifier(identifier: string)
    | StringLiteral(literal: string)
    | Token(tokenType: string, text: string)
    | OtherSyntax(kind: string, nodes: seq<Syntax>)

  /** NameEquals on a declaration's name: an identifier with exactly that text. */
  predicate NameEquals(name: Syntax, text: string)
  {
    name.Identifier? && name.identifier == text
  }

  /** The text of a property key: an identifier's name or a plain string's value. */
  function KeyText(key: Syntax): Option<string>
  {
    match key
    case Identifier(identifier) => Some(identifier)
    case StringLiteral(literal) => Some(literal)
    case _ => None
  }

  /** HasPropertyName: the key's text is exactly the given name. */
  predicate HasPropertyName(property: Syntax, name: string)
    requires property.ObjectProperty?
  {
    KeyText(property.key) == Some(name)
  }

  /** ObjectSyntax.Properties: the property children, in order. */
  function Properties(children: seq<Syntax>): (r: seq<Syntax>)
    ensures forall k :: 0 <= k < |r| ==> r[k].ObjectProperty?
    ensures |r| <= |children|
  {
    if children == [] then []
    else (if children[0].ObjectProperty? then [children[0]] else []) + Properties(children[1..])
  }

  /** SyntaxFactory.CreateObjectProperty("SETTING_3_FROM_US", CreateStringLiteral("some value")):
      an identifier key, a colon token and a string value. */
  const NewSetting: Syntax :=
    ObjectProperty(Identifier("SETTING_3_FROM_US"), Token("Colon", ":"), StringLiteral("some value"))

  const ResourceName := "functionAppAppSettings"

  /** The nodes the callback rebuilds. */
  predicate IsTarget(syntax: Syntax)
  {
    syntax.ResourceDeclaration? && NameEquals(syntax.name, ResourceName) && syntax.value.ObjectSyntax?
  }

  /** The Select over the outer object's properties: `properties` with an object value
      gains the new setting at the end; any other property is kept. */
  function RewriteProperty(property: Syntax): Syntax
    requires property.ObjectProperty?
  {
    if HasPropertyName(property, "properties") && property.value.ObjectSyntax? then
      var propertiesObject := property.value;
      var newChildren := propertiesObject.children + [NewSetting];
      ObjectProperty(property.key, property.colon,
                     ObjectSyntax(propertiesObject.openBrace, newChildren, propertiesObject.closeBrace))
    else
      property
  }

  function RewriteAll(properties: seq<Syntax>): (r: seq<Syntax>)
    requires forall k :: 0 <= k < |properties| ==> properties[k].ObjectProperty?
    ensures |r| == |properties|
  {
    seq(|properties|, k requires 0 <= k < |properties| => RewriteProperty(properties[k]))
  }

  /** The callback given to CallbackRewriter.Rewrite. */
  function Callback(syntax: Syntax): (r: Syntax)
    ensures !IsTarget(syntax) ==> r == syntax
    ensures r.ResourceDeclaration? <==> syntax.ResourceDeclaration?
  {
    if IsTarget(syntax) then
      var resource := syntax;
      var objectSyntax := resource.value;
      ResourceDeclaration(
        resource.leadingNodes,
        resource.keyword,
        resource.name,
        resource.resourceType,
        resource.existingKeyword,
        resource.assignment,
        resource.newlines,
        ObjectSyntax(objectSyntax.openBrace, RewriteAll(Properties(objectSyntax.children)), objectSyntax.closeBrace))
    else
      syntax
  }

  /** The rebuilt resource keeps every part but the body: leading nodes, keyword, name,
      type, existing keyword, assignment and newlines. Its body is an object with the
      old braces whose children are the old properties, each rewritten, in order. It
      is again a target. */
  lemma CallbackRebuilds(syntax: Syntax)
    requires IsTarget(syntax)
    ensures var r := Callback(syntax);
            r.ResourceDeclaration? &&
            r.leadingNodes == syntax.leadingNodes && r.keyword == syntax.keyword &&
            r.name == syntax.name && r.resourceType == syntax.resourceType &&
            r.existingKeyword == syntax.existingKeyword && r.assignment == syntax.assignment &&
            r.newlines == syntax.newlines &&
            r.value.ObjectSyntax? &&
            r.value.openBrace == syntax.value.openBrace && r.value.closeBrace == syntax.value.closeBrace &&
            |r.value.children| == |Properties(syntax.value.children)| &&
            (forall k :: 0 <= k < |r.value.children| ==>
               r.value.children[k] == RewriteProperty(Properties(syntax.value.children)[k])) &&
            IsTarget(r)
  {
  }

  /** Properties keeps exactly the property children ... */
  lemma {:induction false} PropertiesMembers(children: seq<Syntax>, x: Syntax)
    ensures x in Properties(children) <==> x in children && x.ObjectProperty?
  {
    if children != [] {
      PropertiesMembers(children[1..], x);
      assert children == [children[0]] + children[1..];
    }
  }

  /** ... in their order: filtering distributes over concatenation ... */
  lemma {:induction false} PropertiesConcat(a: seq<Syntax>, b: seq<Syntax>)
    ensures Properties(a + b) == Properties(a) + Properties(b)
  {
    if a == [] {
      assert a + b == b;
    } else {
      assert (a + b)[0] == a[0] && (a + b)[1..] == a[1..] + b;
      PropertiesConcat(a[1..], b);
    }
  }

  /** ... and a list of properties alone is kept whole. */
  lemma {:induction false} PropertiesOfProperties(properties: seq<Syntax>)
    requires forall k :: 0 <= k < |properties| ==> properties[k].ObjectProperty?
    ensures Properties(properties) == properties
  {
    if properties != [] {
      PropertiesOfProperties(properties[1..]);
    }
  }

  /** The key text of each property of a list. */
  function KeyTexts(properties: seq<Syntax>): (r: seq<Option<string>>)
    requires forall k :: 0 <= k < |properties| ==> properties[k].ObjectProperty?
    ensures |r| == |properties|
  {
    seq(|properties|, k requires 0 <= k < |properties| => KeyText(properties[k].key))
  }

  /** The rewrite neither adds, drops, renames nor reorders the outer object's
      properties. */
  lemma RewriteKeepsKeys(properties: seq<Syntax>)
    requires forall k :: 0 <= k < |properties| ==> properties[k].ObjectProperty?
    ensures forall k :: 0 <= k < |RewriteAll(properties)| ==> RewriteAll(properties)[k].ObjectProperty?
    ensures KeyTexts(RewriteAll(properties)) == KeyTexts(properties)
  {
  }

  /** A property that is not `properties`, or whose value is not an object, is kept;
      `properties` with an object value keeps its key, colon and braces, and its
      children are the old ones followed by the new setting alone. */
  lemma RewriteCases(property: Syntax)
    requires property.ObjectProperty?
    ensures !(HasPropertyName(property, "properties") && property.value.ObjectSyntax?) ==>
              RewriteProperty(property) == property
    ensures HasPropertyName(property, "properties") && property.value.ObjectSyntax? ==>
              var r := RewriteProperty(property);
              r.ObjectProperty? && r.key == property.key && r.colon == property.colon &&
              HasPropertyName(r, "properties") &&
              r.value.ObjectSyntax? &&
              r.value.openBrace == property.value.openBrace && r.value.closeBrace == property.value.closeBrace &&
              r.value.children[..|property.value.children|] == property.value.children &&
              |r.value.children| == |property.value.children| + 1 &&
              r.value.children[|property.value.children|] == NewSetting
  {
  }

  /** The callback is not idempotent: rewriting its result again adds a second copy of
      the setting to a `properties` object. */
  lemma CallbackTwice(syntax: Syntax, k: nat)
    requires IsTarget(syntax)
    requires k < |Properties(syntax.value.children)|
    requires var p := Properties(syntax.value.children)[k];
             HasPropertyName(p, "properties") && p.value.ObjectSyntax?
    ensures Callback(Callback(syntax)).value.ObjectSyntax? &&
            |Callback(Callback(syntax)).value.children| == |Properties(syntax.value.children)|
    ensures var p := Properties(syntax.value.children)[k];
            var twice := Callback(Callback(syntax)).value.children[k];
            twice.ObjectProperty? && twice.value.ObjectSyntax? &&
            twice.value.children == p.value.children + [NewSetting, NewSetting]
    ensures Callback(Callback(syntax)) != Callback(syntax)
  {
    var once := Callback(syntax);
    CallbackRebuilds(syntax);
    CallbackRebuilds(once);
    PropertiesOfProperties(once.value.children);
    var p := Properties(syntax.value.children)[k];
    var q := once.value.children[k];
    assert q == RewriteProperty(p);
    assert Callback(once).value.children[k] == RewriteProperty(q);
    assert (p.value.children + [NewSetting]) + [NewSetting] == p.value.children + [NewSetting, NewSetting];
    assert |Callback(once).value.children[k].value.children| != |q.value.children|;
  }

  /** A setting of the sample with the value 'some value'. */
  function Setting(key: string): Syntax
  {
    ObjectProperty(Identifier(key), Token("Colon", ":"), StringLiteral("some value"))
  }

  /** The declaration of the sample program, with its newline tokens between the
      properties: the rebuilt body has the three properties alone, and `properties`
      ends with the new setting. */
  lemma SampleRewrite()
    ensures var nl := Token("NewLine", "\n");
            var settings :=
              ObjectSyntax(Token("LeftBrace", "{"),
                           [nl, Setting("SETTING_1_FROM_US"), nl, Setting("SETTING_2_FROM_US"), nl,
                            Setting("CUSTOMIZED_SETTING_1"), nl],
                           Token("RightBrace", "}"));
            var parent := ObjectProperty(Identifier("parent"), Token("Colon", ":"), Identifier("functionApp"));
            var name := ObjectProperty(Identifier("name"), Token("Colon", ":"), StringLiteral("appsettings"));
            var properties := ObjectProperty(Identifier("properties"), Token("Colon", ":"), settings);
            var body := ObjectSyntax(Token("LeftBrace", "{"), [nl, parent, nl, name, nl, properties, nl],
                                     Token("RightBrace", "}"));
            var resource :=
              ResourceDeclaration([], Token("Identifier", "resource"), Identifier(ResourceName),
                                  StringLiteral("Microsoft.Web/sites/config@2018-02-01"), None,
                                  Token("Assignment", "="), [], body);
            Callback(resource).value.children ==
              [parent, name,
               ObjectProperty(Identifier("properties"), Token("Colon", ":"),
                              ObjectSyntax(Token("LeftBrace", "{"), settings.children + [NewSetting],
                                           Token("RightBrace", "}")))]
  {
    var nl := Token("NewLine", "\n");
    var settings :=
      ObjectSyntax(Token("LeftBrace", "{"),
                   [nl, Setting("SETTING_1_FROM_US"), nl, Setting("SETTING_2_FROM_US"), nl,
                    Setting("CUSTOMIZED_SETTING_1"), nl],
                   Token("RightBrace", "}"));
    var parent := ObjectProperty(Identifier("parent"), Token("Colon", ":"), Identifier("functionApp"));
    var name := ObjectProperty(Identifier("name"), Token("Colon", ":"), StringLiteral("appsettings"));
    var properties := ObjectProperty(Identifier("properties"), Token("Colon", ":"), settings);
    var children := [nl, parent, nl, name, nl, properties, nl];
    assert children == [nl, parent] + [nl, name] + [nl, properties] + [nl];
    PropertiesConcat([nl, parent] + [nl, name] + [nl, properties], [nl]);
    PropertiesConcat([nl, parent] + [nl, name], [nl, properties]);
    PropertiesConcat([nl, parent], [nl, name]);
    PropertiesPair(nl, parent);
    PropertiesPair(nl, name);
    PropertiesPair(nl, properties);
    assert Properties([nl]) == [];
    assert Properties(children) == [parent, name, properties];
    var body := ObjectSyntax(Token("LeftBrace", "{"), children, Token("RightBrace", "}"));
    var resource :=
      ResourceDeclaration([], Token("Identifier", "resource"), Identifier(ResourceName),
                          StringLiteral("Microsoft.Web/sites/config@2018-02-01"), None,
                          Token("Assignment", "="), [], body);
    assert IsTarget(resource);
    assert Callback(resource).value.children == RewriteAll([parent, name, properties]);
    assert RewriteProperty(parent) == parent && RewriteProperty(name) == name;
    var rewritten := ObjectProperty(Identifier("properties"), Token("Colon", ":"),
                                    ObjectSyntax(Token("LeftBrace", "{"), settings.children + [NewSetting],
                                                 Token("RightBrace", "}")));
    assert RewriteProperty(properties) == rewritten;
    assert RewriteAll([parent, name, properties]) == [parent, name, rewritten];
  }

  lemma PropertiesPair(separator: Syntax, property: Syntax)
    requires !separator.ObjectProperty? && property.ObjectProperty?
    ensures Properties([separator, property]) == [property]
  {
    assert [separator, property][1..] == [property];
  }
}
