# CodeOwl AST extraction, dispatch and retrieval formatting, in Dafny

This project models the part of CodeOwl's backend that turns a parsed syntax
tree into declaration records. Four language extractors (Python,
JavaScript/TypeScript, Go, Rust) each walk a tree-sitter tree in pre-order.
They emit function records, class-like records (classes, structs,
interfaces, traits, impls) and import strings. Around them the model covers:

- the dispatch layer `SimpleASTParser`, with its extension, grammar and
  extractor tables;
- the `node_text` slice helper;
- `VectorRetriever.format_for_ai`, which renders stored code-graph,
  import-file and review-learning payloads as one markdown text.

## Layout

| file | module | models |
|---|---|---|
| `wrappers.dfy` | `Wrappers` | `Option`, `Result` |
| `syntax_tree.dfy` | `SyntaxTree` | the tree (`Node`, `Tree`, `ChildByFieldName`); the specification of a walk (`PreOrder`, `Collect`, `Select`, `MapNodes`) and its lemmas |
| `base_parser.dfy` | `BaseParser` | `node_text` |
| `records.dfy` | `Records` | the record dictionaries every extractor builds |
| `py_strings.dfy` | `PyStrings` | `str.strip(c)`, `str.join`, `str(int)` |
| `python_extractor.dfy` | `PythonExtractor` | `python_extractor.py` |
| `javascript_extractor.dfy` | `JavaScriptExtractor` | `javascript_extractor.py` |
| `go_extractor.dfy` | `GoExtractor` | `go_extractor.py` |
| `rust_extractor.dfy` | `RustExtractor` | `rust_extractor.py` |
| `parser.dfy` | `Parser` | `parser.py`: tables; the `SimpleASTParser` class |
| `vector_retriever.dfy` | `VectorRetriever` | `format_for_ai` |

How each walk is modelled:

- Each recursive `walk` closure is a recursive method. It threads the outer
  list as an accumulator and keeps the source's `for child in
  node.children` loop.
- Each walk is proved against a specification function,
  `Collect(PreOrder(root), visitor)`: the concatenation of what each node
  contributes, in pre-order.
- Lemmas then state what those specification functions mean:
  - which nodes give records, and what each record holds;
  - the order of the output;
  - the outcome of the edge cases.

A dictionary record becomes a datatype:

- the `"type"` tag is an enumeration (`FunctionKind`, `TypeKind`);
- a key that can hold `None` is an `Option`;
- the key only Go methods carry is `ReceiverEntry`, so its absence is
  distinct from a `None` value.

## Model

| member | source | states |
|---|---|---|
| BaseParser.NodeText | CodeOwlBE/src/services/ast/base_parser.py:26-31 | Together with the next two rows: the text is the clamped slice `source[start:end]`, and the call never fails. It is empty exactly when start >= end or start is beyond the source. Otherwise it is the contiguous substring at the start offset, cut off at the end of the source, and never longer than the source |
| BaseParser.NodeTextInRange | CodeOwlBE/src/services/ast/base_parser.py:29 | A node whose range lies inside the source gives exactly `source[start_byte:end_byte]` |
| BaseParser.RootTextIsSource | CodeOwlBE/src/services/ast/base_parser.py:29 | A root spanning [0, len(source)) gives the whole source back |
| SyntaxTree.ChildByFieldName | CodeOwlBE/src/services/ast/extractors/python_extractor.py:14 | A field lookup succeeds exactly when the node has the field, and what it finds is one of the node's children |
| SyntaxTree.SubtreeIsContiguous | CodeOwlBE/src/services/ast/extractors/python_extractor.py:30-31 | The pre-order of any node of a tree is one contiguous stretch of the tree's pre-order: the walk handles each subtree in one piece |
| SyntaxTree.DescendantAfterAncestor | CodeOwlBE/src/services/ast/extractors/python_extractor.py:30-31 | When a node of the tree and a node anywhere below it both contribute one record, the walk of the whole tree gives the outer one's record at an earlier position than the inner one's |
| SyntaxTree.CollectSingletons | CodeOwlBE/src/services/ast/extractors/javascript_extractor.py:30-33 | A walk in which every node contributes one record or none produces the records of the matching nodes, in pre-order, one per match |
| Records.OptionalFieldText | CodeOwlBE/src/services/ast/extractors/python_extractor.py:17-18 | `parameters` is present exactly when the node has the field, and it is then that field's text |
| Records.FunctionRecordOf | CodeOwlBE/src/services/ast/extractors/python_extractor.py:20-28 | A function record has the given name, type and receiver; both lines are at least 1; start_line <= end_line iff start row <= end row; signature and source are both the whole node text |
| Records.TypeRecordOf | CodeOwlBE/src/services/ast/extractors/python_extractor.py:46-52 | A class-like record has the given name and type; its lines follow the same rule; its source is the node text |
| PythonExtractor.WalkFunctions | CodeOwlBE/src/services/ast/extractors/python_extractor.py:12-31 | The recursive walk appends the records of the node's subtree, in pre-order, to the list it is given |
| PythonExtractor.ExtractFunctions | CodeOwlBE/src/services/ast/extractors/python_extractor.py:8-34 | `extract_functions` returns the records of the whole tree |
| PythonExtractor.FunctionsArePreOrderMatches | CodeOwlBE/src/services/ast/extractors/python_extractor.py:12-33 | One record per `function_definition` that has a name field, in pre-order; unnamed ones are skipped |
| PythonExtractor.FunctionRecordIffDefinition | CodeOwlBE/src/services/ast/extractors/python_extractor.py:13-28 | A record is in the output iff some named definition in the tree has exactly that record: type "function", row + 1 lines, parameters, and signature == source == node text |
| PythonExtractor.FunctionLinesOrdered | CodeOwlBE/src/services/ast/extractors/python_extractor.py:23-27 | In a tree whose rows are ordered, every record has 1 <= start_line <= end_line and signature == source |
| PythonExtractor.NestedFunctionRecorded | CodeOwlBE/src/services/ast/extractors/python_extractor.py:30-31 | In any tree, a named `def` anywhere below a named `def` (in its body block, say) gets its own record, after the enclosing one's |
| PythonExtractor.WalkClasses | CodeOwlBE/src/services/ast/extractors/python_extractor.py:41-55 | The class walk appends the subtree's class records in pre-order |
| PythonExtractor.ExtractClasses | CodeOwlBE/src/services/ast/extractors/python_extractor.py:37-58 | `extract_classes` returns the class records of the whole tree |
| PythonExtractor.ClassesArePreOrderMatches | CodeOwlBE/src/services/ast/extractors/python_extractor.py:42-52 | One "class" record per named `class_definition`, in pre-order |
| PythonExtractor.ClassRecordIffDefinition | CodeOwlBE/src/services/ast/extractors/python_extractor.py:42-52 | A class record is in the output iff a named class definition in the tree has exactly that record |
| PythonExtractor.WalkImports | CodeOwlBE/src/services/ast/extractors/python_extractor.py:65-79 | The import walk appends the subtree's imports in pre-order. The from-import loop stops at the first `dotted_name` |
| PythonExtractor.ExtractImports | CodeOwlBE/src/services/ast/extractors/python_extractor.py:61-82 | `extract_imports` returns the imports of the whole tree |
| PythonExtractor.FromImportGivesModulePath | CodeOwlBE/src/services/ast/extractors/python_extractor.py:66-71 | A `from ... import ...` statement gives at most one string. It gives none iff the statement has no `dotted_name` child; otherwise it gives the text of the first one. That is the module path of an absolute import, but the first imported name of a relative one, whose module sits in a `relative_import` child |
| PythonExtractor.ImportStatementGivesEveryDottedName | CodeOwlBE/src/services/ast/extractors/python_extractor.py:72-76 | `import a, b` gives one string per `dotted_name` child, and a string is given iff it is such a child's text |
| PythonExtractor.NoImportNodesNoImports | CodeOwlBE/src/services/ast/extractors/python_extractor.py:65-82 | A tree without import statements yields [] |
| JavaScriptExtractor.WalkFunctions | CodeOwlBE/src/services/ast/extractors/javascript_extractor.py:12-31 | The recursive walk appends the subtree's function records in pre-order |
| JavaScriptExtractor.ExtractFunctions | CodeOwlBE/src/services/ast/extractors/javascript_extractor.py:8-34 | `extract_functions` returns the function records of the whole tree |
| JavaScriptExtractor.FunctionsIgnoreLanguage | CodeOwlBE/src/services/ast/extractors/javascript_extractor.py:8-34 | The result does not depend on `lang_name` |
| JavaScriptExtractor.FunctionsArePreOrderMatches | CodeOwlBE/src/services/ast/extractors/javascript_extractor.py:12-34 | One "function" record per named `function_declaration`, in pre-order, nested ones included |
| JavaScriptExtractor.FunctionRecordIffDeclaration | CodeOwlBE/src/services/ast/extractors/javascript_extractor.py:13-28 | A record is in the output iff a named declaration of the tree has exactly that record |
| JavaScriptExtractor.NestedFunctionRecorded | CodeOwlBE/src/services/ast/extractors/javascript_extractor.py:30-31 | In any tree, a named declaration anywhere below a named declaration gets its own record, after the enclosing one's |
| JavaScriptExtractor.WalkClasses | CodeOwlBE/src/services/ast/extractors/javascript_extractor.py:41-55 | The class walk appends the subtree's class records in pre-order |
| JavaScriptExtractor.ExtractClasses | CodeOwlBE/src/services/ast/extractors/javascript_extractor.py:37-58 | `extract_classes` returns the class records of the whole tree |
| JavaScriptExtractor.ClassesArePreOrderMatches | CodeOwlBE/src/services/ast/extractors/javascript_extractor.py:42-52 | One "class" record per named `class_declaration`, in pre-order |
| JavaScriptExtractor.ClassLinesOrdered | CodeOwlBE/src/services/ast/extractors/javascript_extractor.py:49-50 | In a tree whose rows are ordered, every record is a "class" with 1 <= start_line <= end_line |
| JavaScriptExtractor.AppendSpecifiers | CodeOwlBE/src/services/ast/extractors/javascript_extractor.py:66-70 | The loop over an `import_statement`'s children appends the stripped text of each `string` child, in order |
| JavaScriptExtractor.SpecifiersMember | CodeOwlBE/src/services/ast/extractors/javascript_extractor.py:67-70 | A string is produced by a child list iff it is the stripped text of one of its `string` nodes |
| JavaScriptExtractor.SpecifiersSource | CodeOwlBE/src/services/ast/extractors/javascript_extractor.py:67-70 | A string produced by a child list comes from one of its `string` nodes, which the lemma returns |
| JavaScriptExtractor.SpecifiersComplete | CodeOwlBE/src/services/ast/extractors/javascript_extractor.py:67-70 | Every `string` node of a child list gives its stripped text to the list's specifiers |
| JavaScriptExtractor.WalkImports | CodeOwlBE/src/services/ast/extractors/javascript_extractor.py:65-73 | The import walk appends the subtree's imports in pre-order |
| JavaScriptExtractor.ExtractImports | CodeOwlBE/src/services/ast/extractors/javascript_extractor.py:61-76 | `extract_imports` returns the imports of the whole tree |
| JavaScriptExtractor.ImportsAreStrippedStrings | CodeOwlBE/src/services/ast/extractors/javascript_extractor.py:66-70 | Every import is a direct `string` child of some `import_statement`, with `"` and then `'` stripped |
| JavaScriptExtractor.EveryImportStringImported | CodeOwlBE/src/services/ast/extractors/javascript_extractor.py:66-73 | Conversely, every `string` child of every `import_statement` in the tree gives its stripped text as an import |
| JavaScriptExtractor.QuotedSpecifier | CodeOwlBE/src/services/ast/extractors/javascript_extractor.py:69 | A specifier written `"p"` or `'p'`, where `p` neither begins nor ends with a quote, is imported as `p` |
| JavaScriptExtractor.ImportsNeverSingleQuoted | CodeOwlBE/src/services/ast/extractors/javascript_extractor.py:69 | No import begins or ends with `'` |
| JavaScriptExtractor.NonStringChildrenContributeNothing | CodeOwlBE/src/services/ast/extractors/javascript_extractor.py:67-68 | An import statement with no `string` child contributes nothing |
| JavaScriptExtractor.NoImportNodesNoImports | CodeOwlBE/src/services/ast/extractors/javascript_extractor.py:65-76 | A tree without `import_statement` nodes yields [] |
| GoExtractor.WalkFunctions | CodeOwlBE/src/services/ast/extractors/go_extractor.py:12-51 | The walk appends the subtree's function and method records in pre-order |
| GoExtractor.ExtractFunctions | CodeOwlBE/src/services/ast/extractors/go_extractor.py:8-54 | `extract_functions` returns the function and method records of the whole tree |
| GoExtractor.FunctionsArePreOrderMatches | CodeOwlBE/src/services/ast/extractors/go_extractor.py:12-53 | One record per named function or method declaration, in pre-order; unnamed ones are skipped; a node gives at most one record |
| GoExtractor.FunctionOrMethodRecord | CodeOwlBE/src/services/ast/extractors/go_extractor.py:13-48 | A record is in the output iff it comes from a named declaration of the tree. A `function_declaration` gives "function" with no receiver key. A `method_declaration` gives "method" with receiver = the receiver field's text, or None |
| GoExtractor.ReceiverOnlyOnMethods | CodeOwlBE/src/services/ast/extractors/go_extractor.py:20-48 | A record has a receiver key iff it is a "method" |
| GoExtractor.WalkClasses | CodeOwlBE/src/services/ast/extractors/go_extractor.py:61-87 | The type walk appends the subtree's struct and interface records in pre-order |
| GoExtractor.ExtractClasses | CodeOwlBE/src/services/ast/extractors/go_extractor.py:57-90 | `extract_classes` returns the struct and interface records of the whole tree |
| GoExtractor.ClassesArePreOrderMatches | CodeOwlBE/src/services/ast/extractors/go_extractor.py:62-84 | One record per `type_spec` that has both fields and a struct or interface type, in pre-order |
| GoExtractor.TypeSpecKinds | CodeOwlBE/src/services/ast/extractors/go_extractor.py:62-84 | A `type_spec` missing either field gives nothing. `struct_type` gives "struct", `interface_type` gives "interface", and any other type kind gives nothing |
| GoExtractor.ClassesAreStructsOrInterfaces | CodeOwlBE/src/services/ast/extractors/go_extractor.py:69-84 | Every recorded type is a struct or an interface |
| GoExtractor.AppendSpecPaths | CodeOwlBE/src/services/ast/extractors/go_extractor.py:98-102 | The loop over an `import_spec`'s children appends each string literal child's text with `"` stripped, in order |
| GoExtractor.SpecPathsMember | CodeOwlBE/src/services/ast/extractors/go_extractor.py:99-101 | A path is produced by a child list iff it is the stripped text of one of its `interpreted_string_literal` nodes |
| GoExtractor.SpecPathsSource | CodeOwlBE/src/services/ast/extractors/go_extractor.py:99-101 | A path produced by a child list comes from one of its `interpreted_string_literal` nodes, which the lemma returns |
| GoExtractor.SpecPathsComplete | CodeOwlBE/src/services/ast/extractors/go_extractor.py:99-101 | Every `interpreted_string_literal` node of a child list gives its stripped text to the list's paths |
| GoExtractor.WalkImports | CodeOwlBE/src/services/ast/extractors/go_extractor.py:97-105 | The import walk appends the subtree's imports in pre-order |
| GoExtractor.ExtractImports | CodeOwlBE/src/services/ast/extractors/go_extractor.py:93-108 | `extract_imports` returns the imports of the whole tree |
| GoExtractor.ImportsAreUnquotedPaths | CodeOwlBE/src/services/ast/extractors/go_extractor.py:98-102 | Every import is a string literal child of some `import_spec`, with `"` stripped |
| GoExtractor.EveryImportSpecLiteralImported | CodeOwlBE/src/services/ast/extractors/go_extractor.py:98-105 | Conversely, every string literal child of every `import_spec` in the tree gives its stripped text as an import |
| GoExtractor.QuotedPath | CodeOwlBE/src/services/ast/extractors/go_extractor.py:101 | A path written `"p"`, where `p` neither begins nor ends with `"`, is imported as `p` |
| GoExtractor.ImportsNeverQuoted | CodeOwlBE/src/services/ast/extractors/go_extractor.py:101 | No import begins or ends with `"` |
| RustExtractor.WalkFunctions | CodeOwlBE/src/services/ast/extractors/rust_extractor.py:12-31 | The walk appends the subtree's function records in pre-order |
| RustExtractor.ExtractFunctions | CodeOwlBE/src/services/ast/extractors/rust_extractor.py:8-34 | `extract_functions` returns the function records of the whole tree |
| RustExtractor.FunctionsArePreOrderMatches | CodeOwlBE/src/services/ast/extractors/rust_extractor.py:13-28 | One record per named `function_item`, in pre-order |
| RustExtractor.FunctionLinesOrdered | CodeOwlBE/src/services/ast/extractors/rust_extractor.py:20-28 | In a tree whose rows are ordered, every record is a "function" with 1 <= start_line <= end_line |
| RustExtractor.NestedFunctionRecorded | CodeOwlBE/src/services/ast/extractors/rust_extractor.py:30-31 | In any tree, a named `function_item` anywhere below another gets its own record, after the enclosing one's |
| RustExtractor.WalkClasses | CodeOwlBE/src/services/ast/extractors/rust_extractor.py:41-86 | The walk appends the subtree's struct, impl and trait records in pre-order |
| RustExtractor.ExtractClasses | CodeOwlBE/src/services/ast/extractors/rust_extractor.py:37-89 | `extract_classes` returns the struct, impl and trait records of the whole tree |
| RustExtractor.ClassesArePreOrderMatches | CodeOwlBE/src/services/ast/extractors/rust_extractor.py:42-83 | One record per recorded item, in pre-order, so each node contributes at most one |
| RustExtractor.StructAndTraitRecords | CodeOwlBE/src/services/ast/extractors/rust_extractor.py:42-52 | A named `struct_item` gives "struct" and a named `trait_item` gives "trait"; unnamed ones give nothing |
| RustExtractor.ImplRecords | CodeOwlBE/src/services/ast/extractors/rust_extractor.py:54-71 | An `impl_item` without a type field is skipped even when it has a trait. With a type and no trait it is an "impl" named after the type. With both it is a "trait_impl" named "{trait} for {type}" |
| RustExtractor.TraitImplNames | CodeOwlBE/src/services/ast/extractors/rust_extractor.py:60-63 | Every "trait_impl" record comes from an impl with both fields and is named "{trait} for {type}" |
| RustExtractor.WalkImports | CodeOwlBE/src/services/ast/extractors/rust_extractor.py:96-104 | The import walk appends the subtree's imports in pre-order |
| RustExtractor.ExtractImports | CodeOwlBE/src/services/ast/extractors/rust_extractor.py:92-107 | `extract_imports` returns the imports of the whole tree |
| RustExtractor.ImportsAreUseArguments | CodeOwlBE/src/services/ast/extractors/rust_extractor.py:97-101 | One import per `use_declaration` with an argument field: that field's raw text, in pre-order. A declaration without the field is skipped |
| PyStrings.StripSpec | CodeOwlBE/src/services/ast/extractors/go_extractor.py:101 | `s.strip(c)` is a stretch of `s` surrounded only by `c`s, and it neither begins nor ends with `c` |
| PyStrings.StripNoop | CodeOwlBE/src/services/ast/extractors/javascript_extractor.py:69 | A string that neither begins nor ends with `c` is left as it is (so a `'`-quoted specifier passes the `"` strip unchanged) |
| PyStrings.StripEnclosed | CodeOwlBE/src/services/ast/extractors/go_extractor.py:101 | One `c` on each side of a string that neither begins nor ends with `c` is stripped off |
| PyStrings.JoinParts | CodeOwlBE/src/services/vector_retriever.py:101 | A join holds every part at its offset, with the separator between each part and the next. The first part starts the text, and the last part ends it |
| PyStrings.JoinOffsetStep | CodeOwlBE/src/services/vector_retriever.py:101 | Part k + 1 of a join begins one part and one separator after part k |
| PyStrings.JoinPartAt | CodeOwlBE/src/services/vector_retriever.py:101 | Every part of a join sits in the text at its offset |
| PyStrings.JoinSeparatorAt | CodeOwlBE/src/services/vector_retriever.py:101 | Between each part of a join and the next, the text holds exactly the separator |
| PyStrings.JoinLastPartEnds | CodeOwlBE/src/services/vector_retriever.py:101 | Nothing follows the last part of a join |
| PyStrings.JoinedByChar | CodeOwlBE/src/services/vector_retriever.py:101 | With a one-character separator, every part sits at its offset and is followed by that character, except the last part, which ends the text |
| PyStrings.JoinLength | CodeOwlBE/src/services/vector_retriever.py:101 | The length of a join: the parts' total length plus one separator per pair of neighbours |
| PyStrings.NatToStringValue | CodeOwlBE/src/services/vector_retriever.py:82 | The numeral of a count is all digits and reads back, digit by digit from the left, as that count |
| PyStrings.NatToStringCanonical | CodeOwlBE/src/services/vector_retriever.py:82 | The numeral of a count has no leading zero unless it is `0`, and it begins with `0` iff the count is 0 |
| PyStrings.IntToStringSign | CodeOwlBE/src/services/vector_retriever.py:82 | `str(i)` begins with `-` iff i < 0; after the sign comes the numeral of -i |
| PyStrings.IntToStringCanonical | CodeOwlBE/src/services/vector_retriever.py:82 | `str(i)` is canonical digits after an optional sign, and never `-0` |
| PyStrings.IntToStringValue | CodeOwlBE/src/services/vector_retriever.py:82 | `str(i)`, read back as a signed decimal numeral, is i |
| PyStrings.IntToStringInjective | CodeOwlBE/src/services/vector_retriever.py:82 | Different integers render as different numerals |
| Parser.LanguageMapEntries | CodeOwlBE/src/services/ast/parser.py:23-29 | Exactly `.py`, `.js`, `.ts`, `.go`, `.rs` have an entry, mapping to python, javascript, typescript, go and rust |
| Parser.TablesAgree | CodeOwlBE/src/services/ast/parser.py:14-38 | Every language in the extension table's range has a grammar module and an extractor, and the two tables have the same keys |
| Parser.ScriptLanguagesShareExtractor | CodeOwlBE/src/services/ast/parser.py:34-35 | javascript and typescript map to the same extractor and so get equal functions, classes and imports |
| Parser.NewParser | CodeOwlBE/src/services/ast/parser.py:47-53 | Construction fails with "Unsupported language: {language}" iff the language has no grammar module. Otherwise the parser has that language and the extractor the table names for it. The default language is python |
| Parser.SimpleASTParser.constructor | CodeOwlBE/src/services/ast/parser.py:51-53 | Sets the language name and the table's extractor |
| Parser.SimpleASTParser.ExtractFunctions | CodeOwlBE/src/services/ast/parser.py:55-61 | Dispatches to the language's extractor; only javascript and typescript are handed the language name |
| Parser.SimpleASTParser.ExtractClasses | CodeOwlBE/src/services/ast/parser.py:63-65 | Dispatches to the language's class extractor |
| Parser.SimpleASTParser.ExtractImports | CodeOwlBE/src/services/ast/parser.py:67-69 | Dispatches to the language's import extractor |
| Parser.SimpleASTParser.ExtractSemanticAnalysis | CodeOwlBE/src/services/ast/parser.py:71-82 | The record holds the file path, language = the parser's language, "simplified_ast", and the three dispatched results on the same tree. It is a function of the parser's language and the inputs, so two calls give equal records |
| VectorRetriever.AppendCodeStructure | CodeOwlBE/src/services/vector_retriever.py:76-82 | Appends nothing for no code graphs; otherwise the header and four lines per graph, in order |
| VectorRetriever.AppendImportDependencies | CodeOwlBE/src/services/vector_retriever.py:85-89 | Appends nothing for no import files; otherwise the header and two lines per file |
| VectorRetriever.AppendLearnings | CodeOwlBE/src/services/vector_retriever.py:92-99 | Appends nothing for no learnings; otherwise the header and, per learning, commit, bot comment, the feedback line when flagged, and a blank line |
| VectorRetriever.FormatForAi | CodeOwlBE/src/services/vector_retriever.py:66-101 | The text is the three sections, in order, joined with "\n" |
| VectorRetriever.TextHoldsEveryLine | CodeOwlBE/src/services/vector_retriever.py:101 | The text holds every line of the sections list at its offset. Each line is followed by one newline, except the last, which ends the text |
| VectorRetriever.NothingRetrievedGivesEmptyText | CodeOwlBE/src/services/vector_retriever.py:73-101 | With all three lists empty the text is "" |
| VectorRetriever.GraphsLineCount | CodeOwlBE/src/services/vector_retriever.py:78-82 | Each code graph adds exactly four lines |
| VectorRetriever.ImportsLineCount | CodeOwlBE/src/services/vector_retriever.py:87-89 | Each import file adds exactly two lines |
| VectorRetriever.LearningsLineCount | CodeOwlBE/src/services/vector_retriever.py:94-99 | Each learning adds three lines, plus one iff its feedback flag is set |
| VectorRetriever.SectionSizes | CodeOwlBE/src/services/vector_retriever.py:76-99 | Each section is a header plus its items' lines, or empty; the list is the three sections in turn |
| VectorRetriever.HeaderPositions | CodeOwlBE/src/services/vector_retriever.py:77-93 | A line is a given header iff its list is non-empty and the line sits exactly where that section starts |
| VectorRetriever.CodeHeaderIffGraphs | CodeOwlBE/src/services/vector_retriever.py:76-77 | "## Code Structure" appears iff there are code graphs |
| VectorRetriever.ImportHeaderIffFiles | CodeOwlBE/src/services/vector_retriever.py:85-86 | "## Import Dependencies" appears iff there are import files |
| VectorRetriever.LearningHeaderIffLearnings | CodeOwlBE/src/services/vector_retriever.py:92-93 | "## Past Review Learnings" appears iff there are learnings |
| VectorRetriever.SectionOrder | CodeOwlBE/src/services/vector_retriever.py:75-99 | Code structure comes before imports, and imports come before learnings |
| VectorRetriever.GraphDefaults | CodeOwlBE/src/services/vector_retriever.py:79-82 | Missing keys render as "Unknown", empty name lists, and 0 nodes and 0 edges |
| VectorRetriever.ImportDefaults | CodeOwlBE/src/services/vector_retriever.py:88-89 | Missing keys render as "Unknown" and an empty import list |
| VectorRetriever.LearningDefaults | CodeOwlBE/src/services/vector_retriever.py:95-98 | Missing keys render as "N/A". A missing feedback flag adds no feedback line. A set flag with no feedback renders "N/A" |

## node_text: byte offsets on decoded text

`node_text` is meant to return exactly the bytes of a node's range. It is
also meant to give "" for a node whose range lies outside the source. The
code behaves differently:

- It decodes the file bytes to `str` (`base_parser.py:20-21`), then slices
  the decoded text with the tree's byte offsets (`base_parser.py:29`). On a
  source with multi-byte characters, the offsets and the character positions
  disagree.
- A Python slice clamps its bounds instead of raising. A node that runs past
  the end of the source gives the text up to the end, not "".

The model follows the code: `NodeText` clamps both bounds. The source is a
sequence of characters indexed by the byte offsets, which is exact for ASCII
sources. No decoding happens in the model, because `parse_file` is left out
(see below).

## Left out

- `BaseParser.__init__` and `parse_file`: grammar loading, file reading and
  UTF-8 decoding are foreign calls and I/O. The tree and the source are
  parameters of every operation.
- The tree-sitter grammar modules: `LANGUAGE_MODULES` is modelled by its keys
  only, and the parser holds no grammar object.
- The `node_text_func` callback that every extractor receives: the parser
  always passes `BaseParser.node_text`, so the model calls `NodeText` directly.
- BaseParser.NodeText: multi-byte UTF-8 sources are not modelled; the offsets
  index characters, which agrees with the code only for ASCII text.
- BaseParser.NodeText: the `except Exception: return ""` fallback is not
  modelled as a branch. Offsets are natural numbers and slices clamp, so that
  fallback cannot be reached.
- PythonExtractor.WalkFunctions, WalkClasses, WalkImports, and the `Walk*`
  methods of JavaScriptExtractor, GoExtractor and RustExtractor: the model
  has no depth limit. Each `walk` calls itself once per tree level, so on a
  very deep tree the program stops with CPython's `RecursionError`, which
  `extract_semantic_analysis` passes on. The default limit is about 1000
  frames; a long chain of `+` operands is such a tree. The model returns the
  records for every tree.
- Named fields are modelled as an index into the node's own children. A field
  whose index is out of range reads as absent.
- Line numbers and node offsets are unbounded naturals. Python ints do not
  overflow, so nothing is lost.
- The walks' per-node import steps are factored into helper methods
  (`AppendSpecifiers`, `AppendSpecPaths`) that run the source's loop over the
  node's children.
- `VectorRetriever.get_code_graphs_by_files`, `get_import_files_by_files` and
  `get_related_learnings`: Qdrant searches and embedding calls.
- `VectorRetriever.format_for_ai` is modelled as a method of the module, not
  of a retriever object. It reads no field of the object.
- VectorRetriever.FormatForAi: payloads are typed records whose keys are
  either absent or hold a value of the expected type. A key present with a
  `None` value, or with a value of another type, is not modelled. So `str()`
  is modelled only on the integer counts (`PyStrings.IntToString`), not on
  values of an unexpected type.
- VectorRetriever.HasFeedback: only a boolean `has_user_feedback` is
  modelled. Python truthiness of other values (numbers, strings) is not.
- `vector_indexer.py`, `embedding_service.py`, `qdrant_client.py`,
  `config.py`: uuid generation, database upserts, embedding models and
  environment configuration.
- The re-export modules (`ast/__init__.py`, `extractors/__init__.py`,
  `simple_semantics.py`, `simple_ast_parser.py`).
- Cross-file import resolution: `graph_builder.py` is not part of this model.
