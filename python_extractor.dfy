/**
 * The Python rules: named `function_definition` and `class_definition`
 * nodes, and the module paths of `import` and `from ... import` statements.
 * Each extraction is a recursive walk that appends to one list; the walk is a
 * method threading that list, proved equal to a walk over the pre-order.
 */
module PythonExtractor {
  import opened Wrappers
  import opened SyntaxTree
  import opened BaseParser
  import opened Records

  // ----- functions -----

  predicate IsNamedFunctionDefinition(n: Node) {
    n.kind == "function_definition" && ChildByFieldName(n, "name").Some?
  }

  function FunctionRecordAt(n: Node, src: string): FunctionRecord {
    FunctionRecordOf(n, src, FieldText(n, "name", src), Function, NoReceiverKey)
  }

  /** What visiting one node appends to the function list. */
  function FunctionAt(n: Node, src: string): seq<FunctionRecord> {
    if IsNamedFunctionDefinition(n) then [FunctionRecordAt(n, src)] else []
  }

  function FunctionVisitor(src: string): Node -> seq<FunctionRecord> {
    n => FunctionAt(n, src)
  }

  /** The records `extract_functions` returns. */
  function Functions(tree: Tree, src: string): seq<FunctionRecord> {
    Collect(PreOrder(tree.rootNode), FunctionVisitor(src))
  }

  method ExtractFunctions(tree: Tree, src: string) returns (functions: seq<FunctionRecord>)
    ensures functions == Functions(tree, src)
  {
    functions := WalkFunctions(tree.rootNode, src, []);
  }

  /** The inner `walk`: visit `node`, then walk each child, appending to `functions`. */
  method WalkFunctions(node: Node, src: string, functions: seq<FunctionRecord>) returns (out: seq<FunctionRecord>)
    ensures out == functions + Collect(PreOrder(node), FunctionVisitor(src))
    decreases node
  {
    out := functions;
    if node.kind == "function_definition" {
      var nameNode := ChildByFieldName(node, "name");
      if nameNode.Some? {
        var name := NodeText(nameNode.value, src);
        out := out + [FunctionRecordOf(node, src, name, Function, NoReceiverKey)];
      }
    }
    assert out == functions + FunctionAt(node, src);
    ghost var visited := out;
    ghost var visit := FunctionVisitor(src);
    for i := 0 to |node.children|
      invariant out == visited + Collect(PreOrderOf(node.children[..i]), visit)
    {
      WalkStep(visited, node.children, i, visit);
      out := WalkFunctions(node.children[i], src, out);
    }
    WalkDone(functions, node, visit);
  }

  /**
   * One record per named `function_definition`, in pre-order; a
   * `function_definition` without a name is skipped.
   */
  lemma FunctionsArePreOrderMatches(tree: Tree, src: string)
    ensures Functions(tree, src)
         == MapNodes(Select(PreOrder(tree.rootNode), IsNamedFunctionDefinition), n => FunctionRecordAt(n, src))
  {
    CollectSingletons(PreOrder(tree.rootNode), FunctionVisitor(src), IsNamedFunctionDefinition,
                      n => FunctionRecordAt(n, src));
  }

  /**
   * Every record is a "function" whose name is the name field's text,
   * whose signature and source are the whole node text, and whose lines are
   * the node's rows plus one; and every named definition has its record.
   */
  lemma FunctionRecordIffDefinition(tree: Tree, src: string, r: FunctionRecord)
    ensures r in Functions(tree, src) <==>
            exists m :: m in PreOrder(tree.rootNode) && IsNamedFunctionDefinition(m)
                   && r == FunctionRecord(FieldText(m, "name", src), Function, NoReceiverKey,
                                          m.startRow + 1, m.endRow + 1, ParametersText(m, src),
                                          NodeText(m, src), NodeText(m, src))
  {
    FunctionsArePreOrderMatches(tree, src);
    MapSelectMember(PreOrder(tree.rootNode), IsNamedFunctionDefinition, n => FunctionRecordAt(n, src), r);
  }

  /** In a tree whose rows are ordered, every record ends on or after its first line. */
  lemma FunctionLinesOrdered(tree: Tree, src: string)
    requires RowsOrdered(tree.rootNode)
    ensures forall r :: r in Functions(tree, src) ==> 1 <= r.startLine <= r.endLine && r.signature == r.source
  {
    forall r | r in Functions(tree, src) ensures 1 <= r.startLine <= r.endLine && r.signature == r.source {
      FunctionRecordIffDefinition(tree, src, r);
    }
  }

  /**
   * A named definition anywhere below a named definition (for instance in its
   * body block) gets its own record, after the enclosing one's.
   */
  lemma NestedFunctionRecorded(tree: Tree, src: string, m: Node, d: Node)
    requires m in PreOrder(tree.rootNode) && Below(d, m)
    requires IsNamedFunctionDefinition(m) && IsNamedFunctionDefinition(d)
    ensures exists i, j :: 0 <= i < j < |Functions(tree, src)|
                        && Functions(tree, src)[i] == FunctionRecordAt(m, src)
                        && Functions(tree, src)[j] == FunctionRecordAt(d, src)
  {
    var i, j := DescendantAfterAncestor(tree.rootNode, m, d, FunctionVisitor(src), FunctionRecordAt(m, src), FunctionRecordAt(d, src));
    assert Functions(tree, src)[i] == FunctionRecordAt(m, src) && Functions(tree, src)[j] == FunctionRecordAt(d, src);
  }


  // ----- classes -----

  predicate IsNamedClassDefinition(n: Node) {
    n.kind == "class_definition" && ChildByFieldName(n, "name").Some?
  }

  function ClassRecordAt(n: Node, src: string): TypeRecord {
    TypeRecordOf(n, src, FieldText(n, "name", src), Class)
  }

  function ClassAt(n: Node, src: string): seq<TypeRecord> {
    if IsNamedClassDefinition(n) then [ClassRecordAt(n, src)] else []
  }

  function ClassVisitor(src: string): Node -> seq<TypeRecord> {
    n => ClassAt(n, src)
  }

  /** The records `extract_classes` returns. */
  function Classes(tree: Tree, src: string): seq<TypeRecord> {
    Collect(PreOrder(tree.rootNode), ClassVisitor(src))
  }

  method ExtractClasses(tree: Tree, src: string) returns (classes: seq<TypeRecord>)
    ensures classes == Classes(tree, src)
  {
    classes := WalkClasses(tree.rootNode, src, []);
  }

  method WalkClasses(node: Node, src: string, classes: seq<TypeRecord>) returns (out: seq<TypeRecord>)
    ensures out == classes + Collect(PreOrder(node), ClassVisitor(src))
    decreases node
  {
    out := classes;
    if node.kind == "class_definition" {
      var nameNode := ChildByFieldName(node, "name");
      if nameNode.Some? {
        var name := NodeText(nameNode.value, src);
        out := out + [TypeRecordOf(node, src, name, Class)];
      }
    }
    assert out == classes + ClassAt(node, src);
    ghost var visited := out;
    ghost var visit := ClassVisitor(src);
    for i := 0 to |node.children|
      invariant out == visited + Collect(PreOrderOf(node.children[..i]), visit)
    {
      WalkStep(visited, node.children, i, visit);
      out := WalkClasses(node.children[i], src, out);
    }
    WalkDone(classes, node, visit);
  }

  /** One "class" record per named `class_definition`, in pre-order. */
  lemma ClassesArePreOrderMatches(tree: Tree, src: string)
    ensures Classes(tree, src)
         == MapNodes(Select(PreOrder(tree.rootNode), IsNamedClassDefinition), n => ClassRecordAt(n, src))
  {
    CollectSingletons(PreOrder(tree.rootNode), ClassVisitor(src), IsNamedClassDefinition,
                      n => ClassRecordAt(n, src));
  }

  /** Every class record comes from a named class definition, with its lines and text. */
  lemma ClassRecordIffDefinition(tree: Tree, src: string, r: TypeRecord)
    ensures r in Classes(tree, src) <==>
            exists m :: m in PreOrder(tree.rootNode) && IsNamedClassDefinition(m)
                   && r == TypeRecord(FieldText(m, "name", src), Class, m.startRow + 1, m.endRow + 1, NodeText(m, src))
  {
    ClassesArePreOrderMatches(tree, src);
    MapSelectMember(PreOrder(tree.rootNode), IsNamedClassDefinition, n => ClassRecordAt(n, src), r);
  }

  // ----- imports -----

  predicate IsDottedName(n: Node) {
    n.kind == "dotted_name"
  }

  /** The text of every `dotted_name` child, in order. */
  function DottedNames(children: seq<Node>, src: string): seq<string> {
    MapNodes(Select(children, IsDottedName), TextOf(src))
  }

  /**
   * What visiting one node appends: for `from m import ...` only the first
   * dotted name (the module path), for `import a, b` every dotted name.
   */
  function ImportsAt(n: Node, src: string): seq<string> {
    if n.kind == "import_from_statement" then
      var names := DottedNames(n.children, src);
      if names == [] then [] else [names[0]]
    else if n.kind == "import_statement" then
      DottedNames(n.children, src)
    else
      []
  }

  function ImportVisitor(src: string): Node -> seq<string> {
    n => ImportsAt(n, src)
  }

  /** The strings `extract_imports` returns. */
  function Imports(tree: Tree, src: string): seq<string> {
    Collect(PreOrder(tree.rootNode), ImportVisitor(src))
  }

  method ExtractImports(tree: Tree, src: string) returns (imports: seq<string>)
    ensures imports == Imports(tree, src)
  {
    imports := WalkImports(tree.rootNode, src, []);
  }

  method WalkImports(node: Node, src: string, imports: seq<string>) returns (out: seq<string>)
    ensures out == imports + Collect(PreOrder(node), ImportVisitor(src))
    decreases node
  {
    out := imports;
    if node.kind == "import_from_statement" {
      var j := 0;
      while j < |node.children|
        invariant 0 <= j <= |node.children|
        invariant forall k :: 0 <= k < j ==> !IsDottedName(node.children[k])
        invariant out == imports
      {
        var child := node.children[j];
        if child.kind == "dotted_name" {
          var modulePath := NodeText(child, src);
          out := out + [modulePath];
          SelectFirst(node.children, IsDottedName, j);
          break;
        }
        j := j + 1;
      }
      if j == |node.children| {
        SelectEmpty(node.children, IsDottedName);
      }
    } else if node.kind == "import_statement" {
      for j := 0 to |node.children|
        invariant out == imports + DottedNames(node.children[..j], src)
      {
        ghost var before := out;
        var child := node.children[j];
        if child.kind == "dotted_name" {
          var modulePath := NodeText(child, src);
          out := out + [modulePath];
        }
        SelectStep(imports, node.children, j, IsDottedName, TextOf(src), before, out);
      }
      assert node.children[..|node.children|] == node.children;
    }
    assert out == imports + ImportsAt(node, src);
    ghost var visited := out;
    ghost var visit := ImportVisitor(src);
    for i := 0 to |node.children|
      invariant out == visited + Collect(PreOrderOf(node.children[..i]), visit)
    {
      WalkStep(visited, node.children, i, visit);
      out := WalkImports(node.children[i], src, out);
    }
    WalkDone(imports, node, visit);
  }

  /**
   * `from m import x, y` gives at most one string: the text of its first
   * `dotted_name` child. That is the module path of an absolute import. In a
   * relative import (`from . import x`, `from .a import b`) the module sits in
   * a `relative_import` child, so it is the first imported name.
   */
  lemma FromImportGivesModulePath(n: Node, src: string)
    requires n.kind == "import_from_statement"
    ensures |ImportsAt(n, src)| <= 1
    ensures ImportsAt(n, src) == [] <==> forall k :: 0 <= k < |n.children| ==> n.children[k].kind != "dotted_name"
    ensures forall k :: 0 <= k < |n.children| && n.children[k].kind == "dotted_name"
                     && (forall j :: 0 <= j < k ==> n.children[j].kind != "dotted_name")
                     ==> ImportsAt(n, src) == [NodeText(n.children[k], src)]
  {
    SelectEmpty(n.children, IsDottedName);
    forall k | 0 <= k < |n.children| && n.children[k].kind == "dotted_name"
                && (forall j :: 0 <= j < k ==> n.children[j].kind != "dotted_name")
      ensures ImportsAt(n, src) == [NodeText(n.children[k], src)]
    {
      SelectFirst(n.children, IsDottedName, k);
    }
  }

  /** `import a, b.c` gives the text of every `dotted_name` child, in order, and nothing else. */
  lemma ImportStatementGivesEveryDottedName(n: Node, src: string, s: string)
    requires n.kind == "import_statement"
    ensures |ImportsAt(n, src)| == |Select(n.children, IsDottedName)|
    ensures s in ImportsAt(n, src) <==> exists c :: c in n.children && c.kind == "dotted_name" && s == NodeText(c, src)
  {
    MapSelectMember(n.children, IsDottedName, TextOf(src), s);
  }

  /** A tree without import statements yields no imports. */
  lemma NoImportNodesNoImports(tree: Tree, src: string)
    requires forall m :: m in PreOrder(tree.rootNode) ==> m.kind != "import_statement" && m.kind != "import_from_statement"
    ensures Imports(tree, src) == []
  {
    var xs := PreOrder(tree.rootNode);
    forall i | 0 <= i < |xs| ensures ImportVisitor(src)(xs[i]) == [] {
      assert xs[i] in xs;
    }
    CollectNothing(xs, ImportVisitor(src));
  }
}
