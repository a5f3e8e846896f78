/**
 * The JavaScript and TypeScript rules, shared by both languages: named
 * `function_declaration` and `class_declaration` nodes, and the quoted
 * module specifier of each `import_statement`.
 */
module JavaScriptExtractor {
  import opened Wrappers
  import opened SyntaxTree
  import opened BaseParser
  import opened Records
  import opened PyStrings

  // ----- functions -----

  predicate IsNamedFunctionDeclaration(n: Node) {
    n.kind == "function_declaration" && ChildByFieldName(n, "name").Some?
  }

  function FunctionRecordAt(n: Node, src: string): FunctionRecord {
    FunctionRecordOf(n, src, FieldText(n, "name", src), Function, NoReceiverKey)
  }

  function FunctionAt(n: Node, src: string): seq<FunctionRecord> {
    if IsNamedFunctionDeclaration(n) then [FunctionRecordAt(n, src)] else []
  }

  function FunctionVisitor(src: string): Node -> seq<FunctionRecord> {
    n => FunctionAt(n, src)
  }

  /** The records `extract_functions` returns; `langName` is accepted and never read. */
  function Functions(tree: Tree, src: string, langName: string): seq<FunctionRecord> {
    Collect(PreOrder(tree.rootNode), FunctionVisitor(src))
  }

  method ExtractFunctions(tree: Tree, src: string, langName: string) returns (functions: seq<FunctionRecord>)
    ensures functions == Functions(tree, src, langName)
  {
    functions := WalkFunctions(tree.rootNode, src, []);
  }

  method WalkFunctions(node: Node, src: string, functions: seq<FunctionRecord>) returns (out: seq<FunctionRecord>)
    ensures out == functions + Collect(PreOrder(node), FunctionVisitor(src))
    decreases node
  {
    out := functions;
    if node.kind == "function_declaration" {
      var nameNode := ChildByFieldName(node, "name");
      if nameNode.Some? {
        var name := NodeText(nameNode.value, src);
        out := out + [FunctionRecordOf(node, src, name, Function, NoReceiverKey)];
      }
    }
    assert out == functions + FunctionAt(node, src);
    ghost var visited := out;
    ghost var visit := FunctionVisitor(src);
    for i := 0 to |node.children|
      invariant out == visited + Collect(PreOrderOf(node.children[..i]), visit)
    {
      WalkStep(visited, node.children, i, visit);
      out := WalkFunctions(node.children[i], src, out);
    }
    WalkDone(functions, node, visit);
  }

  /** JavaScript and TypeScript get the same functions: the language name changes nothing. */
  lemma FunctionsIgnoreLanguage(tree: Tree, src: string, lang1: string, lang2: string)
    ensures Functions(tree, src, lang1) == Functions(tree, src, lang2)
  {
  }

  /** One "function" record per named `function_declaration`, in pre-order, nested ones included. */
  lemma FunctionsArePreOrderMatches(tree: Tree, src: string, langName: string)
    ensures Functions(tree, src, langName)
         == MapNodes(Select(PreOrder(tree.rootNode), IsNamedFunctionDeclaration), n => FunctionRecordAt(n, src))
  {
    CollectSingletons(PreOrder(tree.rootNode), FunctionVisitor(src), IsNamedFunctionDeclaration,
                      n => FunctionRecordAt(n, src));
  }

  /** Every record comes from a named declaration of the tree, with its rows plus one and its text. */
  lemma FunctionRecordIffDeclaration(tree: Tree, src: string, langName: string, r: FunctionRecord)
    ensures r in Functions(tree, src, langName) <==>
            exists m :: m in PreOrder(tree.rootNode) && IsNamedFunctionDeclaration(m)
                   && r == FunctionRecord(FieldText(m, "name", src), Function, NoReceiverKey,
                                          m.startRow + 1, m.endRow + 1, ParametersText(m, src),
                                          NodeText(m, src), NodeText(m, src))
  {
    FunctionsArePreOrderMatches(tree, src, langName);
    MapSelectMember(PreOrder(tree.rootNode), IsNamedFunctionDeclaration, n => FunctionRecordAt(n, src), r);
  }

  /**
   * A named declaration anywhere below a named declaration (for instance in
   * its body block) gets its own record, after the enclosing one's.
   */
  lemma NestedFunctionRecorded(tree: Tree, src: string, langName: string, m: Node, d: Node)
    requires m in PreOrder(tree.rootNode) && Below(d, m)
    requires IsNamedFunctionDeclaration(m) && IsNamedFunctionDeclaration(d)
    ensures exists i, j :: 0 <= i < j < |Functions(tree, src, langName)|
                        && Functions(tree, src, langName)[i] == FunctionRecordAt(m, src)
                        && Functions(tree, src, langName)[j] == FunctionRecordAt(d, src)
  {
    var i, j := DescendantAfterAncestor(tree.rootNode, m, d, FunctionVisitor(src), FunctionRecordAt(m, src), FunctionRecordAt(d, src));
    assert Functions(tree, src, langName)[i] == FunctionRecordAt(m, src) && Functions(tree, src, langName)[j] == FunctionRecordAt(d, src);
  }


  // ----- classes -----

  predicate IsNamedClassDeclaration(n: Node) {
    n.kind == "class_declaration" && ChildByFieldName(n, "name").Some?
  }

  function ClassRecordAt(n: Node, src: string): TypeRecord {
    TypeRecordOf(n, src, FieldText(n, "name", src), Class)
  }

  function ClassAt(n: Node, src: string): seq<TypeRecord> {
    if IsNamedClassDeclaration(n) then [ClassRecordAt(n, src)] else []
  }

  function ClassVisitor(src: string): Node -> seq<TypeRecord> {
    n => ClassAt(n, src)
  }

  /** The records `extract_classes` returns. */
  function Classes(tree: Tree, src: string): seq<TypeRecord> {
    Collect(PreOrder(tree.rootNode), ClassVisitor(src))
  }

  method ExtractClasses(tree: Tree, src: string) returns (classes: seq<TypeRecord>)
    ensures classes == Classes(tree, src)
  {
    classes := WalkClasses(tree.rootNode, src, []);
  }

  method WalkClasses(node: Node, src: string, classes: seq<TypeRecord>) returns (out: seq<TypeRecord>)
    ensures out == classes + Collect(PreOrder(node), ClassVisitor(src))
    decreases node
  {
    out := classes;
    if node.kind == "class_declaration" {
      var nameNode := ChildByFieldName(node, "name");
      if nameNode.Some? {
        var name := NodeText(nameNode.value, src);
        out := out + [TypeRecordOf(node, src, name, Class)];
      }
    }
    assert out == classes + ClassAt(node, src);
    ghost var visited := out;
    ghost var visit := ClassVisitor(src);
    for i := 0 to |node.children|
      invariant out == visited + Collect(PreOrderOf(node.children[..i]), visit)
    {
      WalkStep(visited, node.children, i, visit);
      out := WalkClasses(node.children[i], src, out);
    }
    WalkDone(classes, node, visit);
  }

  /** One "class" record per named `class_declaration`, in pre-order. */
  lemma ClassesArePreOrderMatches(tree: Tree, src: string)
    ensures Classes(tree, src)
         == MapNodes(Select(PreOrder(tree.rootNode), IsNamedClassDeclaration), n => ClassRecordAt(n, src))
  {
    CollectSingletons(PreOrder(tree.rootNode), ClassVisitor(src), IsNamedClassDeclaration,
                      n => ClassRecordAt(n, src));
  }

  /** In a tree whose rows are ordered, every class record has 1 <= start_line <= end_line. */
  lemma ClassLinesOrdered(tree: Tree, src: string)
    requires RowsOrdered(tree.rootNode)
    ensures forall r :: r in Classes(tree, src) ==> r.kind == Class && 1 <= r.startLine <= r.endLine
  {
    ClassesArePreOrderMatches(tree, src);
    forall r | r in Classes(tree, src) ensures r.kind == Class && 1 <= r.startLine <= r.endLine {
      MapSelectMember(PreOrder(tree.rootNode), IsNamedClassDeclaration, n => ClassRecordAt(n, src), r);
    }
  }

  // ----- imports -----

  predicate IsStringNode(n: Node) {
    n.kind == "string"
  }

  /** `text.strip('"').strip("'")`. */
  function StripQuotes(text: string): string {
    Strip(Strip(text, '"'), '\'')
  }

  /** The stripped text of a `string` node. */
  function SpecifierOf(c: Node, src: string): string {
    StripQuotes(NodeText(c, src))
  }

  /** The specifiers of the `string` nodes among `cs`, in order. */
  function Specifiers(cs: seq<Node>, src: string): seq<string> {
    if cs == [] then []
    else Specifiers(cs[..|cs| - 1], src)
         + (if IsStringNode(cs[|cs| - 1]) then [SpecifierOf(cs[|cs| - 1], src)] else [])
  }

  /** What visiting one node appends: the stripped text of each `string` child of an import. */
  function ImportsAt(n: Node, src: string): seq<string> {
    if n.kind == "import_statement" then Specifiers(n.children, src) else []
  }

  /** A specifier comes from exactly the `string` nodes of the list. */
  lemma SpecifiersMember(cs: seq<Node>, src: string, s: string)
    ensures s in Specifiers(cs, src) <==> exists c :: c in cs && IsStringNode(c) && s == SpecifierOf(c, src)
  {
    if s in Specifiers(cs, src) {
      var c := SpecifiersSource(cs, src, s);
    }
    if exists c :: c in cs && IsStringNode(c) && s == SpecifierOf(c, src) {
      var c :| c in cs && IsStringNode(c) && s == SpecifierOf(c, src);
      SpecifiersComplete(cs, src, c);
    }
  }

  /** A specifier among those of `cs` comes from some `string` node of `cs`. */
  lemma {:induction false} SpecifiersSource(cs: seq<Node>, src: string, s: string) returns (c: Node)
    requires s in Specifiers(cs, src)
    ensures c in cs && IsStringNode(c) && s == SpecifierOf(c, src)
  {
    var init, last := cs[..|cs| - 1], cs[|cs| - 1];
    if s in Specifiers(init, src) {
      c := SpecifiersSource(init, src, s);
      assert c in cs by { assert cs == init + [last]; }
    } else {
      c := last;
    }
  }

  /** Every `string` node of `cs` gives its specifier. */
  lemma {:induction false} SpecifiersComplete(cs: seq<Node>, src: string, c: Node)
    requires c in cs && IsStringNode(c)
    ensures SpecifierOf(c, src) in Specifiers(cs, src)
  {
    var init, last := cs[..|cs| - 1], cs[|cs| - 1];
    if c != last {
      assert c in init by { assert cs == init + [last]; }
      SpecifiersComplete(init, src, c);
    }
  }

  /** A list without `string` nodes has no specifiers. */
  lemma {:induction false} SpecifiersNone(cs: seq<Node>, src: string)
    requires forall k :: 0 <= k < |cs| ==> cs[k].kind != "string"
    ensures Specifiers(cs, src) == []
  {
    if cs != [] {
      SpecifiersNone(cs[..|cs| - 1], src);
    }
  }

  lemma SpecifiersStep(imports: seq<string>, cs: seq<Node>, j: nat, src: string, prev: seq<string>, next: seq<string>)
    requires j < |cs|
    requires prev == imports + Specifiers(cs[..j], src)
    requires next == if IsStringNode(cs[j]) then prev + [SpecifierOf(cs[j], src)] else prev
    ensures next == imports + Specifiers(cs[..j + 1], src)
  {
    assert cs[..j + 1] == cs[..j] + [cs[j]];
    SpecifiersSnoc(cs[..j], cs[j], src);
  }

  /** Appending a node appends its specifier, if it has one. */
  lemma SpecifiersSnoc(cs: seq<Node>, x: Node, src: string)
    ensures Specifiers(cs + [x], src) == Specifiers(cs, src) + (if IsStringNode(x) then [SpecifierOf(x, src)] else [])
  {
    assert (cs + [x])[..|cs|] == cs;
  }

  function ImportVisitor(src: string): Node -> seq<string> {
    n => ImportsAt(n, src)
  }

  /** The strings `extract_imports` returns. */
  function Imports(tree: Tree, src: string): seq<string> {
    Collect(PreOrder(tree.rootNode), ImportVisitor(src))
  }

  method ExtractImports(tree: Tree, src: string) returns (imports: seq<string>)
    ensures imports == Imports(tree, src)
  {
    imports := WalkImports(tree.rootNode, src, []);
  }

  /** The `import_statement` step of the walk: the stripped text of each `string` child, in order. */
  method AppendSpecifiers(node: Node, src: string, imports: seq<string>) returns (out: seq<string>)
    ensures out == imports + ImportsAt(node, src)
  {
    out := imports;
    if node.kind == "import_statement" {
      for j := 0 to |node.children|
        invariant out == imports + Specifiers(node.children[..j], src)
      {
        ghost var before := out;
        var child := node.children[j];
        if child.kind == "string" {
          var text := StripQuotes(NodeText(child, src));
          out := out + [text];
        }
        SpecifiersStep(imports, node.children, j, src, before, out);
      }
      assert node.children[..|node.children|] == node.children;
    }
  }

  method WalkImports(node: Node, src: string, imports: seq<string>) returns (out: seq<string>)
    ensures out == imports + Collect(PreOrder(node), ImportVisitor(src))
    decreases node
  {
    out := AppendSpecifiers(node, src, imports);
    ghost var visited := out;
    ghost var visit := ImportVisitor(src);
    for i := 0 to |node.children|
      invariant out == visited + Collect(PreOrderOf(node.children[..i]), visit)
    {
      WalkStep(visited, node.children, i, visit);
      out := WalkImports(node.children[i], src, out);
    }
    WalkDone(imports, node, visit);
  }

  /** The import statement and the `string` child an import comes from. */
  lemma ImportOrigin(tree: Tree, src: string, s: string) returns (m: Node, c: Node)
    requires s in Imports(tree, src)
    ensures m in PreOrder(tree.rootNode) && m.kind == "import_statement"
    ensures c in m.children && c.kind == "string" && s == StripQuotes(NodeText(c, src))
  {
    var xs := PreOrder(tree.rootNode);
    CollectMember(xs, ImportVisitor(src), s);
    var i :| 0 <= i < |xs| && s in ImportsAt(xs[i], src);
    m := xs[i];
    c := SpecifiersSource(m.children, src, s);
  }

  /** Every import is the stripped text of a `string` child of some `import_statement` of the tree. */
  lemma ImportsAreStrippedStrings(tree: Tree, src: string)
    ensures forall s :: s in Imports(tree, src) ==>
              exists m, c :: m in PreOrder(tree.rootNode) && m.kind == "import_statement"
                          && c in m.children && c.kind == "string" && s == StripQuotes(NodeText(c, src))
  {
    forall s | s in Imports(tree, src)
      ensures exists m, c :: m in PreOrder(tree.rootNode) && m.kind == "import_statement"
                          && c in m.children && c.kind == "string" && s == StripQuotes(NodeText(c, src))
    {
      var m, c := ImportOrigin(tree, src, s);
    }
  }

  /** Conversely, every `string` child of every `import_statement` of the tree gives an import. */
  lemma EveryImportStringImported(tree: Tree, src: string, m: Node, c: Node)
    requires m in PreOrder(tree.rootNode) && m.kind == "import_statement"
    requires c in m.children && c.kind == "string"
    ensures StripQuotes(NodeText(c, src)) in Imports(tree, src)
  {
    var xs := PreOrder(tree.rootNode);
    var s := SpecifierOf(c, src);
    SpecifiersComplete(m.children, src, c);
    var i :| 0 <= i < |xs| && xs[i] == m;
    assert s in ImportVisitor(src)(xs[i]);
    CollectMember(xs, ImportVisitor(src), s);
  }

  /**
   * A specifier written `"p"` or `'p'`, where `p` neither begins nor ends with
   * either quote, is imported as `p`.
   */
  lemma QuotedSpecifier(text: string, p: string)
    requires text == "\"" + p + "\"" || text == "'" + p + "'"
    requires p != [] ==> p[0] !in "\"'" && p[|p| - 1] !in "\"'"
    ensures StripQuotes(text) == p
  {
    if text == "\"" + p + "\"" {
      StripEnclosed(p, '"');
      StripNoop(p, '\'');
    } else {
      StripNoop(text, '"');
      StripEnclosed(p, '\'');
    }
  }

  /** No import begins or ends with `'`, the quote stripped last. */
  lemma ImportsNeverSingleQuoted(tree: Tree, src: string)
    ensures forall s :: s in Imports(tree, src) ==> s == [] || (s[0] != '\'' && s[|s| - 1] != '\'')
  {
    forall s | s in Imports(tree, src) ensures s == [] || (s[0] != '\'' && s[|s| - 1] != '\'') {
      var m, c := ImportOrigin(tree, src, s);
      StripSpec(Strip(NodeText(c, src), '"'), '\'');
    }
  }

  /** An import statement with no `string` child contributes nothing. */
  lemma NonStringChildrenContributeNothing(n: Node, src: string)
    requires forall k :: 0 <= k < |n.children| ==> n.children[k].kind != "string"
    ensures ImportsAt(n, src) == []
  {
    SpecifiersNone(n.children, src);
  }

  /** A tree without `import_statement` nodes yields no imports. */
  lemma NoImportNodesNoImports(tree: Tree, src: string)
    requires forall m :: m in PreOrder(tree.rootNode) ==> m.kind != "import_statement"
    ensures Imports(tree, src) == []
  {
    var xs := PreOrder(tree.rootNode);
    forall i | 0 <= i < |xs| ensures ImportVisitor(src)(xs[i]) == [] {
      assert xs[i] in xs;
    }
    CollectNothing(xs, ImportVisitor(src));
  }
}
