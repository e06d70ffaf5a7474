/** The syntax-tree dump of bicep-print-syntax-tree.cs: a visitor that lists every
    node of a tree in pre-order with its parent and depth (SyntaxCollectorVisitor),
    and a writer that prints one line per node with tree connectors (SyntaxWriter). */
module SyntaxPrinter {
  import opened Wrappers
  import opened Sequences

  /** A concrete syntax tree: a token with its type and text, or a node of some syntax
      class with its children in the order the visitor visits them. */
  datatype Syntax = Token(tokenType: string, text: string) | Node(kind: string, children: seq<Syntax>)

  /** SyntaxItem. The parent is the position of the parent's item in the collected
      list: two items are the same record exactly when they are the same position. */
  datatype SyntaxItem = SyntaxItem(syntax: Syntax, parent: Option<nat>, depth: nat)

  /** The nodes of a tree in pre-order: a node, then each child's subtree in turn. */
  function PreOrder(t: Syntax): seq<Syntax>
  {
    match t
    case Token(_, _) => [t]
    case Node(_, children) => [t] + PreOrderAll(children)
  }

  function PreOrderAll(ts: seq<Syntax>): seq<Syntax>
  {
    if ts == [] then [] else PreOrder(ts[0]) + PreOrderAll(ts[1..])
  }

  function Syntaxes(items: seq<SyntaxItem>): (r: seq<Syntax>)
    ensures |r| == |items| && forall k :: 0 <= k < |items| ==> r[k] == items[k].syntax
  {
    seq(|items|, k requires 0 <= k < |items| => items[k].syntax)
  }

  /** The items VisitInternal adds for `t` when the list already holds `start` items and
      the visitor's fields are `parent` and `depth`. */
  function Collect(t: Syntax, parent: Option<nat>, depth: nat, start: nat): seq<SyntaxItem>
  {
    match t
    case Token(_, _) => [SyntaxItem(t, parent, depth)]
    case Node(_, children) => [SyntaxItem(t, parent, depth)] + CollectAll(children, Some(start), depth + 1, start + 1)
  }

  function CollectAll(ts: seq<Syntax>, parent: Option<nat>, depth: nat, start: nat): seq<SyntaxItem>
  {
    if ts == [] then []
    else
      var first := Collect(ts[0], parent, depth, start);
      first + CollectAll(ts[1..], parent, depth, start + |first|)
  }

  lemma CollectAllStep(ts: seq<Syntax>, i: nat, parent: Option<nat>, depth: nat, start: nat)
    requires i < |ts|
    ensures CollectAll(ts[i..], parent, depth, start) ==
            Collect(ts[i], parent, depth, start) +
            CollectAll(ts[i + 1..], parent, depth, start + |Collect(ts[i], parent, depth, start)|)
  {
    assert ts[i..][0] == ts[i] && ts[i..][1..] == ts[i + 1..];
  }

  /** One child visited: its items move from the part still to come to the part done. */
  lemma CollectStep(ts: seq<Syntax>, i: nat, parent: Option<nat>, depth: nat, first: nat,
                    offset: nat, done: seq<SyntaxItem>, added: seq<SyntaxItem>)
    requires i < |ts|
    requires CollectAll(ts, parent, depth, first) == done + CollectAll(ts[i..], parent, depth, offset + |done|)
    requires added == Collect(ts[i], parent, depth, offset + |done|)
    ensures CollectAll(ts, parent, depth, first) ==
            (done + added) + CollectAll(ts[i + 1..], parent, depth, offset + |done + added|)
  {
    CollectAllStep(ts, i, parent, depth, offset + |done|);
    Associative(done, added, CollectAll(ts[i + 1..], parent, depth, offset + |done| + |added|));
  }

  lemma CollectUnfold(t: Syntax, parent: Option<nat>, depth: nat, start: nat)
    ensures Collect(t, parent, depth, start) ==
            [SyntaxItem(t, parent, depth)] +
            CollectAll(if t.Node? then t.children else [], Some(start), depth + 1, start + 1)
  {
  }

  /** Item k of a collected segment that starts at list position `start` points at
      an earlier item of the same segment: one level shallower, and a node of which
      item k's syntax is a child. */
  ghost predicate InnerLink(c: seq<SyntaxItem>, start: nat, k: nat)
    requires k < |c|
  {
    c[k].parent.Some? && start <= c[k].parent.value < start + k &&
    var j := c[k].parent.value - start;
    c[k].depth == c[j].depth + 1 && c[j].syntax.Node? && c[k].syntax in c[j].syntax.children
  }

  lemma {:induction false} CollectPreOrder(t: Syntax, parent: Option<nat>, depth: nat, start: nat)
    ensures Syntaxes(Collect(t, parent, depth, start)) == PreOrder(t)
    decreases t, 1
  {
    match t
    case Token(_, _) =>
    case Node(_, children) =>
      var a := CollectAll(children, Some(start), depth + 1, start + 1);
      CollectAllPreOrder(children, Some(start), depth + 1, start + 1);
      assert Syntaxes([SyntaxItem(t, parent, depth)] + a) == [t] + Syntaxes(a);
  }

  lemma {:induction false} CollectAllPreOrder(ts: seq<Syntax>, parent: Option<nat>, depth: nat, start: nat)
    ensures Syntaxes(CollectAll(ts, parent, depth, start)) == PreOrderAll(ts)
    decreases ts, 0
  {
    if ts != [] {
      var first := Collect(ts[0], parent, depth, start);
      var rest := CollectAll(ts[1..], parent, depth, start + |first|);
      CollectPreOrder(ts[0], parent, depth, start);
      CollectAllPreOrder(ts[1..], parent, depth, start + |first|);
      assert Syntaxes(first + rest) == Syntaxes(first) + Syntaxes(rest);
    }
  }

  /** The items of one subtree: its root first, with the given parent and depth, and
      every later item linked to an earlier one of the same subtree. */
  lemma {:induction false} CollectLinked(t: Syntax, parent: Option<nat>, depth: nat, start: nat, k: nat)
    requires k < |Collect(t, parent, depth, start)|
    ensures var c := Collect(t, parent, depth, start);
            if k == 0 then c[0] == SyntaxItem(t, parent, depth) else InnerLink(c, start, k)
    decreases t, 1
  {
    match t
    case Token(_, _) =>
    case Node(_, children) =>
      if k > 0 {
        var c := Collect(t, parent, depth, start);
        var a := CollectAll(children, Some(start), depth + 1, start + 1);
        assert c == [SyntaxItem(t, parent, depth)] + a;
        CollectAllLinked(children, Some(start), depth + 1, start + 1, k - 1);
        assert c[k] == a[k - 1];
        if InnerLink(a, start + 1, k - 1) {
          var j := a[k - 1].parent.value - (start + 1);
          assert c[j + 1] == a[j];
        }
      }
  }

  /** The items of a list of sibling subtrees: each is the root of one of them, with
      the given parent and depth, or linked to an earlier item of the same list. */
  lemma {:induction false} CollectAllLinked(ts: seq<Syntax>, parent: Option<nat>, depth: nat, start: nat, k: nat)
    requires k < |CollectAll(ts, parent, depth, start)|
    ensures var c := CollectAll(ts, parent, depth, start);
            (c[k].parent == parent && c[k].depth == depth && c[k].syntax in ts) || InnerLink(c, start, k)
    decreases ts, 0
  {
    var c := CollectAll(ts, parent, depth, start);
    var first := Collect(ts[0], parent, depth, start);
    var rest := CollectAll(ts[1..], parent, depth, start + |first|);
    assert c == first + rest;
    if k < |first| {
      CollectLinked(ts[0], parent, depth, start, k);
      assert c[k] == first[k];
      if k > 0 {
        var j := first[k].parent.value - start;
        assert c[j] == first[j];
      }
    } else {
      var m := k - |first|;
      CollectAllLinked(ts[1..], parent, depth, start + |first|, m);
      assert c[k] == rest[m];
      if InnerLink(rest, start + |first|, m) {
        var j := rest[m].parent.value - (start + |first|);
        assert c[j + |first|] == rest[j];
      } else {
        assert rest[m].syntax in ts[1..];
      }
    }
  }

  /** What every list the collector builds satisfies: the root alone has no parent and
      depth 0, and every other item's parent is an earlier item one level shallower. */
  ghost predicate ParentLinks(items: seq<SyntaxItem>)
  {
    |items| > 0 && items[0].parent == None && items[0].depth == 0 &&
    forall k :: 0 < k < |items| ==> ParentLink(items, k)
  }

  /** Item k's parent is an earlier item, one level shallower. */
  ghost predicate ParentLink(items: seq<SyntaxItem>, k: nat)
    requires k < |items|
  {
    items[k].parent.Some? && items[k].parent.value < k &&
    items[k].depth == items[items[k].parent.value].depth + 1
  }

  /** Item k's syntax is one of the children of its parent item's syntax. */
  ghost predicate ChildOfParent(items: seq<SyntaxItem>, k: nat)
    requires k < |items|
  {
    items[k].parent.Some? && items[k].parent.value < |items| &&
    items[items[k].parent.value].syntax.Node? &&
    items[k].syntax in items[items[k].parent.value].syntax.children
  }

  /** The list Build returns for a tree: one item per node in pre-order, the root first
      with no parent, and each item's parent an earlier node that has it as a child. */
  lemma BuildShape(t: Syntax)
    ensures Syntaxes(Collect(t, None, 0, 0)) == PreOrder(t)
    ensures Collect(t, None, 0, 0)[0] == SyntaxItem(t, None, 0)
    ensures ParentLinks(Collect(t, None, 0, 0))
    ensures forall k :: 0 < k < |Collect(t, None, 0, 0)| ==> ChildOfParent(Collect(t, None, 0, 0), k)
  {
    var items := Collect(t, None, 0, 0);
    CollectPreOrder(t, None, 0, 0);
    CollectLinked(t, None, 0, 0, 0);
    forall k | 0 < k < |items|
      ensures ParentLink(items, k) && ChildOfParent(items, k)
    {
      CollectLinked(t, None, 0, 0, k);
    }
  }

  lemma BuildLinks(t: Syntax)
    ensures ParentLinks(Collect(t, None, 0, 0))
  {
    BuildShape(t);
  }

  /** SyntaxCollectorVisitor: the list built so far and the fields that hold the item
      of the node being visited and its children's depth. */
  class SyntaxCollector {
    var syntaxList: seq<SyntaxItem>
    var parent: Option<nat>
    var depth: nat

    constructor ()
      ensures syntaxList == [] && parent == None && depth == 0
    {
      syntaxList := [];
      parent := None;
      depth := 0;
    }

    /** Records `syntax`, visits its children one level deeper with `syntax` as their
        parent, and puts `parent` and `depth` back as they were. */
    method VisitInternal(syntax: Syntax)
      modifies this
      decreases syntax, 1
      ensures syntaxList == old(syntaxList) + Collect(syntax, old(parent), old(depth), |old(syntaxList)|)
      ensures parent == old(parent) && depth == old(depth)
    {
      ghost var start := |syntaxList|;
      var syntaxItem := SyntaxItem(syntax, parent, depth);
      syntaxList := syntaxList + [syntaxItem];
      ghost var prefix := syntaxList;

      var prevParent := parent;
      parent := Some(|syntaxList| - 1);
      depth := depth + 1;
      if syntax.Node? {
        VisitChildren(syntax.children);
      }
      CollectUnfold(syntax, prevParent, depth - 1, start);
      Associative(old(syntaxList), [syntaxItem], syntaxList[|prefix|..]);
      depth := depth - 1;
      parent := prevParent;
    }

    /** base.VisitInternal: visits the children in order, with the fields as they are. */
    method VisitChildren(children: seq<Syntax>)
      modifies this
      decreases children, 0
      ensures syntaxList == old(syntaxList) + CollectAll(children, old(parent), old(depth), |old(syntaxList)|)
      ensures parent == old(parent) && depth == old(depth)
    {
      ghost var prefix := syntaxList;
      ghost var done := [];
      var i := 0;
      while i < |children|
        invariant 0 <= i <= |children|
        invariant parent == old(parent) && depth == old(depth)
        invariant syntaxList == prefix + done
        invariant CollectAll(children, parent, depth, |prefix|) ==
                  done + CollectAll(children[i..], parent, depth, |prefix| + |done|)
      {
        ghost var added := Collect(children[i], parent, depth, |prefix| + |done|);
        CollectStep(children, i, parent, depth, |prefix|, |prefix|, done, added);
        VisitInternal(children[i]);
        Associative(prefix, done, added);
        done := done + added;
        i := i + 1;
      }
      assert children[i..] == [];
      assert done + [] == done;
    }

    /** Build: the items of every node of the tree rooted at `syntax`. */
    static method Build(syntax: Syntax) returns (items: seq<SyntaxItem>)
      ensures items == Collect(syntax, None, 0, 0)
    {
      var visitor := new SyntaxCollector();
      visitor.VisitInternal(syntax);
      assert visitor.parent == None && visitor.depth == 0;
      items := visitor.syntaxList;
    }
  }

  /** GetAncestors as a value: the parent's position, the grandparent's, and so on up
      to the root. */
  function Ancestors(items: seq<SyntaxItem>, i: nat): seq<nat>
    requires ParentLinks(items) && i < |items|
    decreases i
  {
    match items[i].parent
    case None => []
    case Some(p) =>
      assert i != 0 && ParentLink(items, i);
      [p] + Ancestors(items, p)
  }

  /** GetAncestors: follows the parent links from item i until the root. */
  method GetAncestors(items: seq<SyntaxItem>, i: nat) returns (ancestors: seq<nat>)
    requires ParentLinks(items) && i < |items|
    ensures ancestors == Ancestors(items, i)
  {
    ancestors := [];
    var data: nat := i;
    while items[data].parent.Some?
      invariant data < |items|
      invariant ancestors + Ancestors(items, data) == Ancestors(items, i)
      decreases data
    {
      assert data != 0 && ParentLink(items, data);
      var parent := items[data].parent.value;
      Associative(ancestors, [parent], Ancestors(items, parent));
      ancestors := ancestors + [parent];
      data := parent;
    }
    assert ancestors + [] == ancestors;
  }

  /** There is one ancestor per level between an item and the root: the m-th is m + 1
      levels up, the first is the parent and the last is the root. */
  lemma {:induction false} AncestorsDepth(items: seq<SyntaxItem>, i: nat)
    requires ParentLinks(items) && i < |items|
    ensures var a := Ancestors(items, i);
            |a| == items[i].depth &&
            (forall m :: 0 <= m < |a| ==> a[m] < i && items[a[m]].depth == items[i].depth - 1 - m) &&
            (|a| > 0 ==> a[0] == items[i].parent.value && a[|a| - 1] == 0)
    decreases i
  {
    assert i == 0 || ParentLink(items, i);
    match items[i].parent
    case None =>
    case Some(p) =>
      assert i != 0 && ParentLink(items, i);
      assert p != 0 ==> ParentLink(items, p);
      var a := Ancestors(items, i);
      var b := Ancestors(items, p);
      AncestorsDepth(items, p);
      assert a == [p] + b;
  }

  /** The positions, below n, of the items whose parent is `key`, in list order: the
      group of `key` in the lookup of items by parent. */
  function WithParent(items: seq<SyntaxItem>, key: Option<nat>, n: nat): seq<nat>
    requires n <= |items|
  {
    if n == 0 then []
    else WithParent(items, key, n - 1) + (if items[n - 1].parent == key then [n - 1] else [])
  }

  /** Item j is the last element of its parent's group in the lookup. */
  predicate IsLastChild(items: seq<SyntaxItem>, j: nat)
    requires j < |items|
  {
    var group := WithParent(items, items[j].parent, |items|);
    |group| > 0 && group[|group| - 1] == j
  }

  lemma {:induction false} LastWithParent(items: seq<SyntaxItem>, key: Option<nat>, n: nat, j: nat)
    requires j < n <= |items| && items[j].parent == key
    ensures var group := WithParent(items, key, n);
            |group| > 0 &&
            (group[|group| - 1] == j <==> forall k :: j < k < n ==> items[k].parent != key)
  {
    if n - 1 != j {
      LastWithParent(items, key, n - 1, j);
    }
  }

  /** An item is the last child of its parent exactly when no later item has the same
      parent. */
  lemma IsLastChildIff(items: seq<SyntaxItem>, j: nat)
    requires j < |items|
    ensures IsLastChild(items, j) <==> forall k :: j < k < |items| ==> items[k].parent != items[j].parent
  {
    LastWithParent(items, items[j].parent, |items|, j);
  }

  /** The two characters drawn for ancestor a: blank below a last child, a bar
      otherwise. (Every ancestor is a position of the list; see AncestorsDepth.) */
  function Segment(items: seq<SyntaxItem>, a: nat): string
  {
    if a < |items| && items[a].depth > 0 && IsLastChild(items, a) then "  " else "| "
  }

  function Segments(items: seq<SyntaxItem>, path: seq<nat>): string
  {
    if path == [] then ""
    else Segments(items, path[..|path| - 1]) + Segment(items, path[|path| - 1])
  }

  lemma SegmentsStep(items: seq<SyntaxItem>, path: seq<nat>, k: nat)
    requires k < |path|
    ensures Segments(items, path[..k + 1]) == Segments(items, path[..k]) + Segment(items, path[k])
  {
    assert path[..k + 1][..k] == path[..k];
  }

  /** The connector drawn in front of an item that is not the root. */
  function Connector(items: seq<SyntaxItem>, i: nat): string
    requires i < |items|
  {
    if IsLastChild(items, i) then "└─" else "├─"
  }

  /** The ancestors of item i from the one just below the root down to the parent:
      the sequence the writer draws a segment for. */
  function DrawnAncestors(items: seq<SyntaxItem>, i: nat): seq<nat>
    requires ParentLinks(items) && i < |items|
  {
    var path := Reversed(Ancestors(items, i));
    if path == [] then [] else path[1..]
  }

  function GraphPrefix(items: seq<SyntaxItem>, i: nat): string
    requires ParentLinks(items) && i < |items|
  {
    Segments(items, DrawnAncestors(items, i)) + (if items[i].depth > 0 then Connector(items, i) else "")
  }

  /** A token shows its type and its text with whitespace escaped between bars; any
      other node shows the name of its syntax class. */
  function Label(syntax: Syntax): string
  {
    match syntax
    case Token(tokenType, text) => "Token(" + tokenType + ") |" + EscapeWhitespace(text) + "|"
    case Node(kind, _) => kind
  }

  /** The line GetSyntaxLoggingString writes for item i. */
  function Line(items: seq<SyntaxItem>, i: nat): string
    requires ParentLinks(items) && i < |items|
  {
    GraphPrefix(items, i) + Label(items[i].syntax)
  }

  /** GetSyntaxLoggingString: the graph prefix built segment by segment, then the
      label. */
  method GetSyntaxLoggingString(items: seq<SyntaxItem>, i: nat) returns (line: string)
    requires ParentLinks(items) && i < |items|
    ensures line == Line(items, i)
  {
    var graphPrefix := "";
    var ancestors := GetAncestors(items, i);
    AncestorsDepth(items, i);
    var path := Reversed(ancestors);
    var drawn := if path == [] then [] else path[1..];
    assert drawn == DrawnAncestors(items, i);
    var k := 0;
    while k < |drawn|
      invariant 0 <= k <= |drawn|
      invariant graphPrefix == Segments(items, drawn[..k])
    {
      var ancestor := drawn[k];
      var isLast := items[ancestor].depth > 0 && IsLastChild(items, ancestor);
      graphPrefix := graphPrefix + (if isLast then "  " else "| ");
      SegmentsStep(items, drawn, k);
      k := k + 1;
    }
    assert drawn[..k] == drawn;
    if items[i].depth > 0 {
      var isLast := IsLastChild(items, i);
      graphPrefix := graphPrefix + (if isLast then "└─" else "├─");
    }
    line := graphPrefix + Label(items[i].syntax);
  }

  /** WriteSyntax: one line per node of the tree, in the order Build lists them. The
      writer is modelled as the sequence of lines written. */
  method WriteSyntax(syntax: Syntax) returns (lines: seq<string>)
    ensures ParentLinks(Collect(syntax, None, 0, 0))
    ensures |lines| == |Collect(syntax, None, 0, 0)| == |PreOrder(syntax)|
    ensures forall k :: 0 <= k < |lines| ==> lines[k] == Line(Collect(syntax, None, 0, 0), k)
  {
    var syntaxList := SyntaxCollector.Build(syntax);
    BuildLinks(syntax);
    CollectPreOrder(syntax, None, 0, 0);
    lines := WriteItems(syntaxList);
    LinesAll(syntaxList);
  }

  /** The lines written for the first n items. */
  function Lines(items: seq<SyntaxItem>, n: nat): seq<string>
    requires ParentLinks(items) && n <= |items|
  {
    if n == 0 then [] else Lines(items, n - 1) + [Line(items, n - 1)]
  }

  lemma {:induction false} LinesAt(items: seq<SyntaxItem>, n: nat, m: nat)
    requires ParentLinks(items) && m < n <= |items|
    ensures |Lines(items, n)| == n && Lines(items, n)[m] == Line(items, m)
  {
    if m < n - 1 {
      LinesAt(items, n - 1, m);
    } else if n > 1 {
      LinesAt(items, n - 1, 0);
    }
  }

  lemma LinesAll(items: seq<SyntaxItem>)
    requires ParentLinks(items)
    ensures |Lines(items, |items|)| == |items|
    ensures forall k :: 0 <= k < |items| ==> Lines(items, |items|)[k] == Line(items, k)
  {
    LinesAt(items, |items|, 0);
    forall k | 0 <= k < |items|
      ensures Lines(items, |items|)[k] == Line(items, k)
    {
      LinesAt(items, |items|, k);
    }
  }

  /** The loop of WriteSyntax over the collected items. */
  method WriteItems(items: seq<SyntaxItem>) returns (lines: seq<string>)
    requires ParentLinks(items)
    ensures lines == Lines(items, |items|)
  {
    lines := [];
    for k := 0 to |items|
      invariant lines == Lines(items, k)
    {
      var line := GetSyntaxLoggingString(items, k);
      lines := lines + [line];
    }
  }

  /** The characters escaped in token text. */
  predicate IsEscaped(c: char)
  {
    c == '\r' || c == '\n' || c == '\t'
  }

  /** String.Replace for a one-character pattern: every occurrence of c, left to right. */
  function Replace(s: string, c: char, replacement: string): string
  {
    if s == [] then "" else (if s[0] == c then replacement else [s[0]]) + Replace(s[1..], c, replacement)
  }

  /** EscapeWhitespace: carriage return, line feed and tab become backslash escapes. */
  function EscapeWhitespace(input: string): string
  {
    Replace(Replace(Replace(input, '\r', "\\r"), '\n', "\\n"), '\t', "\\t")
  }

  /** The escape of one character, the reference definition of EscapeWhitespace. */
  function EscapeChar(c: char): string
  {
    if c == '\r' then "\\r" else if c == '\n' then "\\n" else if c == '\t' then "\\t" else [c]
  }

  function EscapeEach(s: string): string
  {
    if s == [] then "" else EscapeChar(s[0]) + EscapeEach(s[1..])
  }

  lemma {:induction false} SegmentsAt(items: seq<SyntaxItem>, path: seq<nat>, m: nat)
    requires m < |path|
    ensures |Segments(items, path)| == 2 * |path|
    ensures Segments(items, path)[2 * m..2 * m + 2] == Segment(items, path[m])
  {
    var init := path[..|path| - 1];
    var last := Segment(items, path[|path| - 1]);
    assert |last| == 2;
    if m < |path| - 1 {
      SegmentsAt(items, init, m);
      assert init[m] == path[m];
      SliceOfLeft(Segments(items, init), last, 2 * m, 2 * m + 2);
    } else {
      if init != [] {
        SegmentsAt(items, init, 0);
      }
      SliceOfRight(Segments(items, init), last);
    }
  }

  lemma SliceOfLeft(a: string, b: string, i: nat, j: nat)
    requires i <= j <= |a|
    ensures (a + b)[i..j] == a[i..j]
  {
  }

  lemma SliceOfRight(a: string, b: string)
    ensures (a + b)[|a|..] == b
  {
  }

  /** The graph prefix has two characters per level: one segment for each ancestor
      below the root, blank when that ancestor is the last child of its parent, then
      the connector. The source's test that the ancestor is deeper than the root is
      always true here. */
  lemma GraphPrefixShape(items: seq<SyntaxItem>, i: nat, m: nat)
    requires ParentLinks(items) && i < |items| && m + 1 < items[i].depth
    ensures |Ancestors(items, i)| == items[i].depth
    ensures |GraphPrefix(items, i)| == 2 * items[i].depth
    ensures var a := Ancestors(items, i)[items[i].depth - 2 - m];
            a < |items| && items[a].depth == m + 1 &&
            GraphPrefix(items, i)[2 * m..2 * m + 2] == (if IsLastChild(items, a) then "  " else "| ")
  {
    AncestorsDepth(items, i);
    GraphPrefixConnector(items, i);
    var drawn := DrawnAncestors(items, i);
    DrawnAt(items, i, m);
    SegmentsAt(items, drawn, m);
    SliceOfLeft(Segments(items, drawn), if items[i].depth > 0 then Connector(items, i) else "", 2 * m, 2 * m + 2);
  }

  lemma DrawnAt(items: seq<SyntaxItem>, i: nat, m: nat)
    requires ParentLinks(items) && i < |items| && m + 1 < items[i].depth
    requires |Ancestors(items, i)| == items[i].depth
    ensures |DrawnAncestors(items, i)| == items[i].depth - 1
    ensures DrawnAncestors(items, i)[m] == Ancestors(items, i)[items[i].depth - 2 - m]
  {
  }

  /** The graph prefix of an item at depth d is 2 * d characters long and, below
      the root, ends with the connector: a corner for the last child of its parent, a
      tee otherwise. */
  lemma GraphPrefixConnector(items: seq<SyntaxItem>, i: nat)
    requires ParentLinks(items) && i < |items|
    ensures |GraphPrefix(items, i)| == 2 * items[i].depth
    ensures items[i].depth == 0 ==> GraphPrefix(items, i) == ""
    ensures items[i].depth > 0 ==>
              GraphPrefix(items, i)[2 * items[i].depth - 2..] == (if IsLastChild(items, i) then "└─" else "├─")
  {
    AncestorsDepth(items, i);
    var drawn := DrawnAncestors(items, i);
    if drawn != [] {
      SegmentsAt(items, drawn, 0);
    }
  }

  /** The first line Build's list yields is the root's label, with no prefix. */
  lemma RootLine(t: Syntax)
    ensures ParentLinks(Collect(t, None, 0, 0))
    ensures Line(Collect(t, None, 0, 0), 0) == Label(t)
  {
    BuildShape(t);
    GraphPrefixConnector(Collect(t, None, 0, 0), 0);
  }

  lemma {:induction false} ReplaceConcat(a: string, b: string, c: char, replacement: string)
    ensures Replace(a + b, c, replacement) == Replace(a, c, replacement) + Replace(b, c, replacement)
  {
    if a != [] {
      assert (a + b)[0] == a[0] && (a + b)[1..] == a[1..] + b;
      ReplaceConcat(a[1..], b, c, replacement);
      var head := if a[0] == c then replacement else [a[0]];
      Associative(head, Replace(a[1..], c, replacement), Replace(b, c, replacement));
    } else {
      assert a + b == b;
    }
  }

  lemma {:induction false} ReplaceAbsent(s: string, c: char, replacement: string)
    requires c !in s
    ensures Replace(s, c, replacement) == s
  {
    if s != [] {
      ReplaceAbsent(s[1..], c, replacement);
    }
  }

  lemma EscapeOne(x: char)
    ensures EscapeWhitespace([x]) == EscapeChar(x)
  {
    assert Replace([], '\r', "\\r") == [];
    assert Replace([], '\n', "\\n") == [];
    assert Replace([], '\t', "\\t") == [];
    assert [x][1..] == [];
    var r1 := Replace([x], '\r', "\\r");
    assert r1 == (if x == '\r' then "\\r" else [x]);
    ReplaceAbsent("\\r", '\n', "\\n");
    ReplaceAbsent("\\r", '\t', "\\t");
    ReplaceAbsent("\\n", '\t', "\\t");
    var r2 := Replace(r1, '\n', "\\n");
    if x != '\r' {
      assert r2 == (if x == '\n' then "\\n" else [x]);
    }
  }

  /** The three successive replacements escape each character on its own: the result
      is the per-character escape of the input. */
  lemma {:induction false} EscapeIsPerCharacter(s: string)
    ensures EscapeWhitespace(s) == EscapeEach(s)
  {
    if s != [] {
      var x, rest := s[0], s[1..];
      assert s == [x] + rest;
      var r1a, r1b := Replace([x], '\r', "\\r"), Replace(rest, '\r', "\\r");
      ReplaceConcat([x], rest, '\r', "\\r");
      var r2a, r2b := Replace(r1a, '\n', "\\n"), Replace(r1b, '\n', "\\n");
      ReplaceConcat(r1a, r1b, '\n', "\\n");
      ReplaceConcat(r2a, r2b, '\t', "\\t");
      EscapeOne(x);
      EscapeIsPerCharacter(rest);
    }
  }

  lemma {:induction false} EachUnescaped(s: string)
    ensures forall k :: 0 <= k < |EscapeEach(s)| ==> !IsEscaped(EscapeEach(s)[k])
  {
    if s != [] {
      EachUnescaped(s[1..]);
    }
  }

  lemma {:induction false} EachIdentity(s: string)
    requires forall k :: 0 <= k < |s| ==> !IsEscaped(s[k])
    ensures EscapeEach(s) == s
  {
    if s != [] {
      EachIdentity(s[1..]);
    }
  }

  /** No carriage return, line feed or tab is left in escaped token text. */
  lemma EscapeRemovesWhitespace(s: string)
    ensures forall k :: 0 <= k < |EscapeWhitespace(s)| ==> !IsEscaped(EscapeWhitespace(s)[k])
  {
    EscapeIsPerCharacter(s);
    EachUnescaped(s);
  }

  /** Text without those characters is written unchanged. */
  lemma EscapeIdentity(s: string)
    requires forall k :: 0 <= k < |s| ==> !IsEscaped(s[k])
    ensures EscapeWhitespace(s) == s
  {
    EscapeIsPerCharacter(s);
    EachIdentity(s);
  }
}
