/**
 * The Go rules: named `function_declaration` and `method_declaration`
 * nodes (a method also records its receiver), `type_spec` nodes whose type
 * is a struct or an interface, and the quoted path of each `import_spec`.
 */
module GoExtractor {
  import opened Wrappers
  import opened SyntaxTree
  import opened BaseParser
  import opened Records
  import opened PyStrings

  // ----- functions and methods -----

  /** A declaration the walk records: a function or a method, with a name field. */
  predicate IsNamedDeclaration(n: Node) {
    (n.kind == "function_declaration" || n.kind == "method_declaration") && ChildByFieldName(n, "name").Some?
  }

  /** A function has no "receiver" key; a method has one, holding the receiver's text or None. */
  function FunctionRecordAt(n: Node, src: string): FunctionRecord {
    if n.kind == "function_declaration" then
      FunctionRecordOf(n, src, FieldText(n, "name", src), Function, NoReceiverKey)
    else
      FunctionRecordOf(n, src, FieldText(n, "name", src), Method, Receiver(OptionalFieldText(n, "receiver", src)))
  }

  function FunctionAt(n: Node, src: string): seq<FunctionRecord> {
    if IsNamedDeclaration(n) then [FunctionRecordAt(n, src)] else []
  }

  function FunctionVisitor(src: string): Node -> seq<FunctionRecord> {
    n => FunctionAt(n, src)
  }

  /** The records `extract_functions` returns. */
  function Functions(tree: Tree, src: string): seq<FunctionRecord> {
    Collect(PreOrder(tree.rootNode), FunctionVisitor(src))
  }

  method ExtractFunctions(tree: Tree, src: string) returns (functions: seq<FunctionRecord>)
    ensures functions == Functions(tree, src)
  {
    functions := WalkFunctions(tree.rootNode, src, []);
  }

  method WalkFunctions(node: Node, src: string, functions: seq<FunctionRecord>) returns (out: seq<FunctionRecord>)
    ensures out == functions + Collect(PreOrder(node), FunctionVisitor(src))
    decreases node
  {
    out := functions;
    if node.kind == "function_declaration" {
      var nameNode := ChildByFieldName(node, "name");
      if nameNode.Some? {
        var name := NodeText(nameNode.value, src);
        out := out + [FunctionRecordOf(node, src, name, Function, NoReceiverKey)];
      }
    } else if node.kind == "method_declaration" {
      var nameNode := ChildByFieldName(node, "name");
      if nameNode.Some? {
        var name := NodeText(nameNode.value, src);
        var receiverNode := ChildByFieldName(node, "receiver");
        var receiver := if receiverNode.Some? then Some(NodeText(receiverNode.value, src)) else None;
        out := out + [FunctionRecordOf(node, src, name, Method, Receiver(receiver))];
      }
    }
    assert out == functions + FunctionAt(node, src);
    ghost var visited := out;
    ghost var visit := FunctionVisitor(src);
    for i := 0 to |node.children|
      invariant out == visited + Collect(PreOrderOf(node.children[..i]), visit)
    {
      WalkStep(visited, node.children, i, visit);
      out := WalkFunctions(node.children[i], src, out);
    }
    WalkDone(functions, node, visit);
  }

  /** One record per named function or method declaration, in pre-order; unnamed ones are skipped. */
  lemma FunctionsArePreOrderMatches(tree: Tree, src: string)
    ensures Functions(tree, src)
         == MapNodes(Select(PreOrder(tree.rootNode), IsNamedDeclaration), n => FunctionRecordAt(n, src))
  {
    CollectSingletons(PreOrder(tree.rootNode), FunctionVisitor(src), IsNamedDeclaration,
                      n => FunctionRecordAt(n, src));
  }

  /**
   * A "function" record comes from a named `function_declaration` and has no
   * receiver key; a "method" record comes from a named `method_declaration`
   * and holds the receiver field's text, or None when there is no receiver.
   */
  lemma FunctionOrMethodRecord(tree: Tree, src: string, r: FunctionRecord)
    ensures r in Functions(tree, src) <==>
            exists m :: m in PreOrder(tree.rootNode) && ChildByFieldName(m, "name").Some? &&
              ((m.kind == "function_declaration"
                && r == FunctionRecordOf(m, src, FieldText(m, "name", src), Function, NoReceiverKey)) ||
               (m.kind == "method_declaration"
                && r == FunctionRecordOf(m, src, FieldText(m, "name", src), Method,
                                         Receiver(OptionalFieldText(m, "receiver", src)))))
  {
    FunctionsArePreOrderMatches(tree, src);
    MapSelectMember(PreOrder(tree.rootNode), IsNamedDeclaration, n => FunctionRecordAt(n, src), r);
  }

  /** Only methods carry a receiver key. */
  lemma ReceiverOnlyOnMethods(tree: Tree, src: string)
    ensures forall r :: r in Functions(tree, src) ==> (r.kind == Method <==> r.receiver.Receiver?)
  {
    forall r | r in Functions(tree, src) ensures r.kind == Method <==> r.receiver.Receiver? {
      FunctionOrMethodRecord(tree, src, r);
    }
  }

  // ----- structs and interfaces -----

  predicate IsRecordedTypeSpec(n: Node) {
    && n.kind == "type_spec"
    && ChildByFieldName(n, "name").Some?
    && ChildByFieldName(n, "type").Some?
    && ChildByFieldName(n, "type").value.kind in {"struct_type", "interface_type"}
  }

  function TypeSpecRecordAt(n: Node, src: string): TypeRecord {
    var kind := if ChildByFieldName(n, "type").Some? && ChildByFieldName(n, "type").value.kind == "struct_type"
                then Struct else Interface;
    TypeRecordOf(n, src, FieldText(n, "name", src), kind)
  }

  function ClassAt(n: Node, src: string): seq<TypeRecord> {
    if IsRecordedTypeSpec(n) then [TypeSpecRecordAt(n, src)] else []
  }

  function ClassVisitor(src: string): Node -> seq<TypeRecord> {
    n => ClassAt(n, src)
  }

  /** The records `extract_classes` returns. */
  function Classes(tree: Tree, src: string): seq<TypeRecord> {
    Collect(PreOrder(tree.rootNode), ClassVisitor(src))
  }

  method ExtractClasses(tree: Tree, src: string) returns (classes: seq<TypeRecord>)
    ensures classes == Classes(tree, src)
  {
    classes := WalkClasses(tree.rootNode, src, []);
  }

  method WalkClasses(node: Node, src: string, classes: seq<TypeRecord>) returns (out: seq<TypeRecord>)
    ensures out == classes + Collect(PreOrder(node), ClassVisitor(src))
    decreases node
  {
    out := classes;
    if node.kind == "type_spec" {
      var nameNode := ChildByFieldName(node, "name");
      var typeNode := ChildByFieldName(node, "type");
      if nameNode.Some? && typeNode.Some? {
        var name := NodeText(nameNode.value, src);
        var typeKind := typeNode.value.kind;
        if typeKind == "struct_type" {
          out := out + [TypeRecordOf(node, src, name, Struct)];
        } else if typeKind == "interface_type" {
          out := out + [TypeRecordOf(node, src, name, Interface)];
        }
      }
    }
    assert out == classes + ClassAt(node, src);
    ghost var visited := out;
    ghost var visit := ClassVisitor(src);
    for i := 0 to |node.children|
      invariant out == visited + Collect(PreOrderOf(node.children[..i]), visit)
    {
      WalkStep(visited, node.children, i, visit);
      out := WalkClasses(node.children[i], src, out);
    }
    WalkDone(classes, node, visit);
  }

  /** One record per `type_spec` with a name and a struct or interface type, in pre-order. */
  lemma ClassesArePreOrderMatches(tree: Tree, src: string)
    ensures Classes(tree, src)
         == MapNodes(Select(PreOrder(tree.rootNode), IsRecordedTypeSpec), n => TypeSpecRecordAt(n, src))
  {
    CollectSingletons(PreOrder(tree.rootNode), ClassVisitor(src), IsRecordedTypeSpec,
                      n => TypeSpecRecordAt(n, src));
  }

  /**
   * A `type_spec` is recorded only when it has both a name and a type field,
   * as "struct" for a `struct_type` and "interface" for an `interface_type`;
   * any other type kind, or a missing field, produces nothing.
   */
  lemma TypeSpecKinds(n: Node, src: string)
    requires n.kind == "type_spec"
    ensures ChildByFieldName(n, "name").None? || ChildByFieldName(n, "type").None? ==> ClassAt(n, src) == []
    ensures ChildByFieldName(n, "name").Some? && ChildByFieldName(n, "type").Some? ==>
              var t := ChildByFieldName(n, "type").value.kind;
              && (t == "struct_type" ==> ClassAt(n, src) == [TypeRecordOf(n, src, FieldText(n, "name", src), Struct)])
              && (t == "interface_type" ==> ClassAt(n, src) == [TypeRecordOf(n, src, FieldText(n, "name", src), Interface)])
              && (t != "struct_type" && t != "interface_type" ==> ClassAt(n, src) == [])
  {
  }

  /** Every recorded type is a struct or an interface. */
  lemma ClassesAreStructsOrInterfaces(tree: Tree, src: string)
    ensures forall r :: r in Classes(tree, src) ==> r.kind == Struct || r.kind == Interface
  {
    ClassesArePreOrderMatches(tree, src);
    forall r | r in Classes(tree, src) ensures r.kind == Struct || r.kind == Interface {
      MapSelectMember(PreOrder(tree.rootNode), IsRecordedTypeSpec, n => TypeSpecRecordAt(n, src), r);
    }
  }

  // ----- imports -----

  predicate IsInterpretedString(n: Node) {
    n.kind == "interpreted_string_literal"
  }

  /** The path a string literal child gives: its text with `"` stripped from both ends. */
  function PathOf(c: Node, src: string): string {
    Strip(NodeText(c, src), '"')
  }

  /** The paths of the string literal children among `cs`, in order. */
  function SpecPaths(cs: seq<Node>, src: string): seq<string> {
    if cs == [] then []
    else SpecPaths(cs[..|cs| - 1], src)
         + (if IsInterpretedString(cs[|cs| - 1]) then [PathOf(cs[|cs| - 1], src)] else [])
  }

  /** What visiting one node appends: the path of each string literal child of an `import_spec`. */
  function ImportsAt(n: Node, src: string): seq<string> {
    if n.kind == "import_spec" then SpecPaths(n.children, src) else []
  }

  /** A path is among those of `cs` iff some string literal among `cs` gives it. */
  lemma SpecPathsMember(cs: seq<Node>, src: string, s: string)
    ensures s in SpecPaths(cs, src) <==> exists c :: c in cs && IsInterpretedString(c) && s == PathOf(c, src)
  {
    if s in SpecPaths(cs, src) {
      var c := SpecPathsSource(cs, src, s);
    }
    if exists c :: c in cs && IsInterpretedString(c) && s == PathOf(c, src) {
      var c :| c in cs && IsInterpretedString(c) && s == PathOf(c, src);
      SpecPathsComplete(cs, src, c);
    }
  }

  /** A path among those of `cs` comes from some string literal of `cs`. */
  lemma {:induction false} SpecPathsSource(cs: seq<Node>, src: string, s: string) returns (c: Node)
    requires s in SpecPaths(cs, src)
    ensures c in cs && IsInterpretedString(c) && s == PathOf(c, src)
  {
    var init, last := cs[..|cs| - 1], cs[|cs| - 1];
    if s in SpecPaths(init, src) {
      c := SpecPathsSource(init, src, s);
      assert c in cs by { assert cs == init + [last]; }
    } else {
      c := last;
    }
  }

  /** Every string literal of `cs` gives its path. */
  lemma {:induction false} SpecPathsComplete(cs: seq<Node>, src: string, c: Node)
    requires c in cs && IsInterpretedString(c)
    ensures PathOf(c, src) in SpecPaths(cs, src)
  {
    var init, last := cs[..|cs| - 1], cs[|cs| - 1];
    if c != last {
      assert c in init by { assert cs == init + [last]; }
      SpecPathsComplete(init, src, c);
    }
  }

  /** One more child of the loop over an `import_spec`'s children. */
  lemma SpecPathsStep(imports: seq<string>, cs: seq<Node>, j: nat, src: string, prev: seq<string>, next: seq<string>)
    requires j < |cs|
    requires prev == imports + SpecPaths(cs[..j], src)
    requires next == if IsInterpretedString(cs[j]) then prev + [PathOf(cs[j], src)] else prev
    ensures next == imports + SpecPaths(cs[..j + 1], src)
  {
    assert cs[..j + 1][..j] == cs[..j];
  }

  function ImportVisitor(src: string): Node -> seq<string> {
    n => ImportsAt(n, src)
  }

  /** The strings `extract_imports` returns. */
  function Imports(tree: Tree, src: string): seq<string> {
    Collect(PreOrder(tree.rootNode), ImportVisitor(src))
  }

  method ExtractImports(tree: Tree, src: string) returns (imports: seq<string>)
    ensures imports == Imports(tree, src)
  {
    imports := WalkImports(tree.rootNode, src, []);
  }

  /** The `import_spec` step of the walk: the path of each string literal child, in order. */
  method AppendSpecPaths(node: Node, src: string, imports: seq<string>) returns (out: seq<string>)
    ensures out == imports + ImportsAt(node, src)
  {
    out := imports;
    if node.kind == "import_spec" {
      for j := 0 to |node.children|
        invariant out == imports + SpecPaths(node.children[..j], src)
      {
        ghost var before := out;
        var child := node.children[j];
        if child.kind == "interpreted_string_literal" {
          var text := Strip(NodeText(child, src), '"');
          out := out + [text];
        }
        SpecPathsStep(imports, node.children, j, src, before, out);
      }
      assert node.children[..|node.children|] == node.children;
    }
  }

  method WalkImports(node: Node, src: string, imports: seq<string>) returns (out: seq<string>)
    ensures out == imports + Collect(PreOrder(node), ImportVisitor(src))
    decreases node
  {
    out := AppendSpecPaths(node, src, imports);
    ghost var visited := out;
    ghost var visit := ImportVisitor(src);
    for i := 0 to |node.children|
      invariant out == visited + Collect(PreOrderOf(node.children[..i]), visit)
    {
      WalkStep(visited, node.children, i, visit);
      out := WalkImports(node.children[i], src, out);
    }
    WalkDone(imports, node, visit);
  }

  /** The import spec and the string literal child an import comes from. */
  lemma ImportOrigin(tree: Tree, src: string, s: string) returns (m: Node, c: Node)
    requires s in Imports(tree, src)
    ensures m in PreOrder(tree.rootNode) && m.kind == "import_spec"
    ensures c in m.children && c.kind == "interpreted_string_literal" && s == Strip(NodeText(c, src), '"')
  {
    var xs := PreOrder(tree.rootNode);
    CollectMember(xs, ImportVisitor(src), s);
    var i :| 0 <= i < |xs| && s in ImportsAt(xs[i], src);
    m := xs[i];
    c := SpecPathsSource(m.children, src, s);
  }

  /** Every import is the text of a string literal child of some `import_spec`, quotes stripped. */
  lemma ImportsAreUnquotedPaths(tree: Tree, src: string)
    ensures forall s :: s in Imports(tree, src) ==>
              exists m, c :: m in PreOrder(tree.rootNode) && m.kind == "import_spec"
                          && c in m.children && c.kind == "interpreted_string_literal"
                          && s == Strip(NodeText(c, src), '"')
  {
    forall s | s in Imports(tree, src)
      ensures exists m, c :: m in PreOrder(tree.rootNode) && m.kind == "import_spec"
                          && c in m.children && c.kind == "interpreted_string_literal"
                          && s == Strip(NodeText(c, src), '"')
    {
      var m, c := ImportOrigin(tree, src, s);
    }
  }

  /** Conversely, every string literal child of every `import_spec` of the tree gives an import. */
  lemma EveryImportSpecLiteralImported(tree: Tree, src: string, m: Node, c: Node)
    requires m in PreOrder(tree.rootNode) && m.kind == "import_spec"
    requires c in m.children && c.kind == "interpreted_string_literal"
    ensures Strip(NodeText(c, src), '"') in Imports(tree, src)
  {
    var xs := PreOrder(tree.rootNode);
    var s := PathOf(c, src);
    SpecPathsComplete(m.children, src, c);
    var i :| 0 <= i < |xs| && xs[i] == m;
    assert s in ImportVisitor(src)(xs[i]);
    CollectMember(xs, ImportVisitor(src), s);
  }

  /** A path written `"p"`, where `p` neither begins nor ends with `"`, is imported as `p`. */
  lemma QuotedPath(c: Node, src: string, p: string)
    requires NodeText(c, src) == "\"" + p + "\""
    requires p != [] ==> p[0] != '"' && p[|p| - 1] != '"'
    ensures PathOf(c, src) == p
  {
    StripEnclosed(p, '"');
  }

  /** No import begins or ends with `"`. */
  lemma ImportsNeverQuoted(tree: Tree, src: string)
    ensures forall s :: s in Imports(tree, src) ==> s == [] || (s[0] != '"' && s[|s| - 1] != '"')
  {
    forall s | s in Imports(tree, src) ensures s == [] || (s[0] != '"' && s[|s| - 1] != '"') {
      var m, c := ImportOrigin(tree, src, s);
      StripSpec(NodeText(c, src), '"');
    }
  }
}
