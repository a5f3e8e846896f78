/**
 * The Rust rules: named `function_item` nodes; `struct_item`, `impl_item`
 * and `trait_item` nodes, an impl of a trait being told apart from a bare
 * impl; and the argument of each `use_declaration`.
 */
module RustExtractor {
  import opened Wrappers
  import opened SyntaxTree
  import opened BaseParser
  import opened Records

  // ----- functions -----

  predicate IsNamedFunctionItem(n: Node) {
    n.kind == "function_item" && ChildByFieldName(n, "name").Some?
  }

  function FunctionRecordAt(n: Node, src: string): FunctionRecord {
    FunctionRecordOf(n, src, FieldText(n, "name", src), Function, NoReceiverKey)
  }

  function FunctionAt(n: Node, src: string): seq<FunctionRecord> {
    if IsNamedFunctionItem(n) then [FunctionRecordAt(n, src)] else []
  }

  function FunctionVisitor(src: string): Node -> seq<FunctionRecord> {
    n => FunctionAt(n, src)
  }

  /** The records `extract_functions` returns. */
  function Functions(tree: Tree, src: string): seq<FunctionRecord> {
    Collect(PreOrder(tree.rootNode), FunctionVisitor(src))
  }

  method ExtractFunctions(tree: Tree, src: string) returns (functions: seq<FunctionRecord>)
    ensures functions == Functions(tree, src)
  {
    functions := WalkFunctions(tree.rootNode, src, []);
  }

  method WalkFunctions(node: Node, src: string, functions: seq<FunctionRecord>) returns (out: seq<FunctionRecord>)
    ensures out == functions + Collect(PreOrder(node), FunctionVisitor(src))
    decreases node
  {
    out := functions;
    if node.kind == "function_item" {
      var nameNode := ChildByFieldName(node, "name");
      if nameNode.Some? {
        var name := NodeText(nameNode.value, src);
        out := out + [FunctionRecordOf(node, src, name, Function, NoReceiverKey)];
      }
    }
    assert out == functions + FunctionAt(node, src);
    ghost var visited := out;
    ghost var visit := FunctionVisitor(src);
    for i := 0 to |node.children|
      invariant out == visited + Collect(PreOrderOf(node.children[..i]), visit)
    {
      WalkStep(visited, node.children, i, visit);
      out := WalkFunctions(node.children[i], src, out);
    }
    WalkDone(functions, node, visit);
  }

  /** One "function" record per named `function_item`, in pre-order. */
  lemma FunctionsArePreOrderMatches(tree: Tree, src: string)
    ensures Functions(tree, src)
         == MapNodes(Select(PreOrder(tree.rootNode), IsNamedFunctionItem), n => FunctionRecordAt(n, src))
  {
    CollectSingletons(PreOrder(tree.rootNode), FunctionVisitor(src), IsNamedFunctionItem,
                      n => FunctionRecordAt(n, src));
  }

  /** In a tree whose rows are ordered, every record is a "function" with 1 <= start_line <= end_line. */
  lemma FunctionLinesOrdered(tree: Tree, src: string)
    requires RowsOrdered(tree.rootNode)
    ensures forall r :: r in Functions(tree, src) ==> r.kind == Function && 1 <= r.startLine <= r.endLine
  {
    FunctionsArePreOrderMatches(tree, src);
    forall r | r in Functions(tree, src) ensures r.kind == Function && 1 <= r.startLine <= r.endLine {
      MapSelectMember(PreOrder(tree.rootNode), IsNamedFunctionItem, n => FunctionRecordAt(n, src), r);
    }
  }

  /**
   * A named `function_item` anywhere below another (for instance in its body
   * block) gets its own record, after the enclosing one's.
   */
  lemma NestedFunctionRecorded(tree: Tree, src: string, m: Node, d: Node)
    requires m in PreOrder(tree.rootNode) && Below(d, m)
    requires IsNamedFunctionItem(m) && IsNamedFunctionItem(d)
    ensures exists i, j :: 0 <= i < j < |Functions(tree, src)|
                        && Functions(tree, src)[i] == FunctionRecordAt(m, src)
                        && Functions(tree, src)[j] == FunctionRecordAt(d, src)
  {
    var i, j := DescendantAfterAncestor(tree.rootNode, m, d, FunctionVisitor(src), FunctionRecordAt(m, src), FunctionRecordAt(d, src));
    assert Functions(tree, src)[i] == FunctionRecordAt(m, src) && Functions(tree, src)[j] == FunctionRecordAt(d, src);
  }

  // ----- structs, impls and traits -----

  /** A node the walk records: a named struct, an impl with a type, or a named trait. */
  predicate IsRecordedItem(n: Node) {
    || (n.kind == "struct_item" && ChildByFieldName(n, "name").Some?)
    || (n.kind == "impl_item" && ChildByFieldName(n, "type").Some?)
    || (n.kind == "trait_item" && ChildByFieldName(n, "name").Some?)
  }

  /** The name and kind of an impl: "{trait} for {type}" when it implements a trait. */
  function ImplRecordAt(n: Node, src: string): TypeRecord {
    if ChildByFieldName(n, "trait").Some? then
      TypeRecordOf(n, src, FieldText(n, "trait", src) + " for " + FieldText(n, "type", src), TraitImpl)
    else
      TypeRecordOf(n, src, FieldText(n, "type", src), Impl)
  }

  function ItemRecordAt(n: Node, src: string): TypeRecord {
    if n.kind == "struct_item" then TypeRecordOf(n, src, FieldText(n, "name", src), Struct)
    else if n.kind == "impl_item" then ImplRecordAt(n, src)
    else TypeRecordOf(n, src, FieldText(n, "name", src), Trait)
  }

  function ClassAt(n: Node, src: string): seq<TypeRecord> {
    if IsRecordedItem(n) then [ItemRecordAt(n, src)] else []
  }

  function ClassVisitor(src: string): Node -> seq<TypeRecord> {
    n => ClassAt(n, src)
  }

  /** The records `extract_classes` returns. */
  function Classes(tree: Tree, src: string): seq<TypeRecord> {
    Collect(PreOrder(tree.rootNode), ClassVisitor(src))
  }

  method ExtractClasses(tree: Tree, src: string) returns (classes: seq<TypeRecord>)
    ensures classes == Classes(tree, src)
  {
    classes := WalkClasses(tree.rootNode, src, []);
  }

  method WalkClasses(node: Node, src: string, classes: seq<TypeRecord>) returns (out: seq<TypeRecord>)
    ensures out == classes + Collect(PreOrder(node), ClassVisitor(src))
    decreases node
  {
    out := classes;
    if node.kind == "struct_item" {
      var nameNode := ChildByFieldName(node, "name");
      if nameNode.Some? {
        var name := NodeText(nameNode.value, src);
        out := out + [TypeRecordOf(node, src, name, Struct)];
      }
    } else if node.kind == "impl_item" {
      var typeNode := ChildByFieldName(node, "type");
      var traitNode := ChildByFieldName(node, "trait");
      if typeNode.Some? {
        var name := NodeText(typeNode.value, src);
        var implType := Impl;
        if traitNode.Some? {
          var traitName := NodeText(traitNode.value, src);
          name := traitName + " for " + name;
          implType := TraitImpl;
        }
        out := out + [TypeRecordOf(node, src, name, implType)];
      }
    } else if node.kind == "trait_item" {
      var nameNode := ChildByFieldName(node, "name");
      if nameNode.Some? {
        var name := NodeText(nameNode.value, src);
        out := out + [TypeRecordOf(node, src, name, Trait)];
      }
    }
    assert out == classes + ClassAt(node, src);
    ghost var visited := out;
    ghost var visit := ClassVisitor(src);
    for i := 0 to |node.children|
      invariant out == visited + Collect(PreOrderOf(node.children[..i]), visit)
    {
      WalkStep(visited, node.children, i, visit);
      out := WalkClasses(node.children[i], src, out);
    }
    WalkDone(classes, node, visit);
  }

  /**
   * One record per recorded struct, impl or trait, in pre-order: every node
   * gives at most one record, since the three kinds are tested in one chain.
   */
  lemma ClassesArePreOrderMatches(tree: Tree, src: string)
    ensures Classes(tree, src)
         == MapNodes(Select(PreOrder(tree.rootNode), IsRecordedItem), n => ItemRecordAt(n, src))
    ensures |Classes(tree, src)| == |Select(PreOrder(tree.rootNode), IsRecordedItem)|
  {
    CollectSingletons(PreOrder(tree.rootNode), ClassVisitor(src), IsRecordedItem, n => ItemRecordAt(n, src));
  }

  /** A named `struct_item` gives "struct", a named `trait_item` gives "trait", and unnamed ones give nothing. */
  lemma StructAndTraitRecords(n: Node, src: string)
    requires n.kind == "struct_item" || n.kind == "trait_item"
    ensures ChildByFieldName(n, "name").None? ==> ClassAt(n, src) == []
    ensures ChildByFieldName(n, "name").Some? ==>
              ClassAt(n, src) == [TypeRecordOf(n, src, FieldText(n, "name", src),
                                               if n.kind == "struct_item" then Struct else Trait)]
  {
  }

  /**
   * An impl without a type field is skipped, even when it names a trait; with
   * a type and no trait it is an "impl" named after the type; with both it is
   * a "trait_impl" named "{trait} for {type}".
   */
  lemma ImplRecords(n: Node, src: string)
    requires n.kind == "impl_item"
    ensures ChildByFieldName(n, "type").None? ==> ClassAt(n, src) == []
    ensures ChildByFieldName(n, "type").Some? && ChildByFieldName(n, "trait").None? ==>
              ClassAt(n, src) == [TypeRecordOf(n, src, FieldText(n, "type", src), Impl)]
    ensures ChildByFieldName(n, "type").Some? && ChildByFieldName(n, "trait").Some? ==>
              ClassAt(n, src) == [TypeRecordOf(n, src, FieldText(n, "trait", src) + " for " + FieldText(n, "type", src), TraitImpl)]
  {
  }

  /** Every "trait_impl" record of the tree is named "{trait} for {type}" after an impl that has both fields. */
  lemma TraitImplNames(tree: Tree, src: string)
    ensures forall r :: r in Classes(tree, src) && r.kind == TraitImpl ==>
              exists m :: m in PreOrder(tree.rootNode) && m.kind == "impl_item"
                       && ChildByFieldName(m, "type").Some? && ChildByFieldName(m, "trait").Some?
                       && r.name == FieldText(m, "trait", src) + " for " + FieldText(m, "type", src)
  {
    ClassesArePreOrderMatches(tree, src);
    forall r | r in Classes(tree, src) && r.kind == TraitImpl
      ensures exists m :: m in PreOrder(tree.rootNode) && m.kind == "impl_item"
                       && ChildByFieldName(m, "type").Some? && ChildByFieldName(m, "trait").Some?
                       && r.name == FieldText(m, "trait", src) + " for " + FieldText(m, "type", src)
    {
      MapSelectMember(PreOrder(tree.rootNode), IsRecordedItem, n => ItemRecordAt(n, src), r);
    }
  }

  // ----- imports -----

  predicate IsUseWithArgument(n: Node) {
    n.kind == "use_declaration" && ChildByFieldName(n, "argument").Some?
  }

  function ImportsAt(n: Node, src: string): seq<string> {
    if IsUseWithArgument(n) then [FieldText(n, "argument", src)] else []
  }

  function ImportVisitor(src: string): Node -> seq<string> {
    n => ImportsAt(n, src)
  }

  /** The strings `extract_imports` returns. */
  function Imports(tree: Tree, src: string): seq<string> {
    Collect(PreOrder(tree.rootNode), ImportVisitor(src))
  }

  method ExtractImports(tree: Tree, src: string) returns (imports: seq<string>)
    ensures imports == Imports(tree, src)
  {
    imports := WalkImports(tree.rootNode, src, []);
  }

  method WalkImports(node: Node, src: string, imports: seq<string>) returns (out: seq<string>)
    ensures out == imports + Collect(PreOrder(node), ImportVisitor(src))
    decreases node
  {
    out := imports;
    if node.kind == "use_declaration" {
      var argNode := ChildByFieldName(node, "argument");
      if argNode.Some? {
        var importPath := NodeText(argNode.value, src);
        out := out + [importPath];
      }
    }
    assert out == imports + ImportsAt(node, src);
    ghost var visited := out;
    ghost var visit := ImportVisitor(src);
    for i := 0 to |node.children|
      invariant out == visited + Collect(PreOrderOf(node.children[..i]), visit)
    {
      WalkStep(visited, node.children, i, visit);
      out := WalkImports(node.children[i], src, out);
    }
    WalkDone(imports, node, visit);
  }

  /**
   * One import per `use_declaration` that has an argument, in pre-order: the
   * argument's raw text; a `use_declaration` without one is skipped.
   */
  lemma ImportsAreUseArguments(tree: Tree, src: string)
    ensures Imports(tree, src)
         == MapNodes(Select(PreOrder(tree.rootNode), IsUseWithArgument), n => FieldText(n, "argument", src))
  {
    CollectSingletons(PreOrder(tree.rootNode), ImportVisitor(src), IsUseWithArgument,
                      n => FieldText(n, "argument", src));
  }
}
