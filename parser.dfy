/**
 * The dispatch layer: the extension and extractor tables, and the parser
 * object that picks one language's extractor and assembles the per-file
 * record from its three results.
 */
module Parser {
  import opened Wrappers
  import opened SyntaxTree
  import opened Records
  import PythonExtractor
  import JavaScriptExtractor
  import GoExtractor
  import RustExtractor

  /** The keys of `LANGUAGE_MODULES`: the languages a parser can be built for. */
  const LanguageModules: set<string> := {"python", "javascript", "typescript", "go", "rust"}

  /** `LANGUAGE_MAP`: file extension to language. */
  const LanguageMap: map<string, string> :=
    map[".py" := "python", ".js" := "javascript", ".ts" := "typescript", ".go" := "go", ".rs" := "rust"]

  /** The four extractor implementations. */
  datatype Extractor = Python | JavaScript | Go | Rust

  /** `EXTRACTORS`: language to extractor; JavaScript and TypeScript share one. */
  const Extractors: map<string, Extractor> :=
    map["python" := Python, "javascript" := JavaScript, "typescript" := JavaScript, "go" := Go, "rust" := Rust]

  /** The languages whose function extraction is also handed the language name. */
  const ScriptLanguages: set<string> := {"javascript", "typescript"}

  /** The dictionary `extract_semantic_analysis` returns. */
  datatype FileSemanticRecord = FileSemanticRecord(
    filePath: string,
    language: string,
    functions: seq<FunctionRecord>,
    classes: seq<TypeRecord>,
    imports: seq<string>,
    analysisMethod: string)

  /** The functions of a file in `lang`, by the extractor the table names for it. */
  function FunctionsFor(lang: string, tree: Tree, src: string): seq<FunctionRecord>
    requires lang in Extractors
  {
    match Extractors[lang]
    case Python => PythonExtractor.Functions(tree, src)
    case JavaScript => JavaScriptExtractor.Functions(tree, src, lang)
    case Go => GoExtractor.Functions(tree, src)
    case Rust => RustExtractor.Functions(tree, src)
  }

  /** The classes of a file in `lang`. */
  function ClassesFor(lang: string, tree: Tree, src: string): seq<TypeRecord>
    requires lang in Extractors
  {
    match Extractors[lang]
    case Python => PythonExtractor.Classes(tree, src)
    case JavaScript => JavaScriptExtractor.Classes(tree, src)
    case Go => GoExtractor.Classes(tree, src)
    case Rust => RustExtractor.Classes(tree, src)
  }

  /** The imports of a file in `lang`. */
  function ImportsFor(lang: string, tree: Tree, src: string): seq<string>
    requires lang in Extractors
  {
    match Extractors[lang]
    case Python => PythonExtractor.Imports(tree, src)
    case JavaScript => JavaScriptExtractor.Imports(tree, src)
    case Go => GoExtractor.Imports(tree, src)
    case Rust => RustExtractor.Imports(tree, src)
  }

  /** Exactly the five extensions have an entry, each naming its language. */
  lemma LanguageMapEntries(ext: string)
    ensures ext in LanguageMap <==> ext in {".py", ".js", ".ts", ".go", ".rs"}
    ensures LanguageMap[".py"] == "python" && LanguageMap[".js"] == "javascript"
    ensures LanguageMap[".ts"] == "typescript" && LanguageMap[".go"] == "go" && LanguageMap[".rs"] == "rust"
  {
  }

  /** Every language an extension maps to can be parsed and has an extractor. */
  lemma TablesAgree()
    ensures forall ext :: ext in LanguageMap ==> LanguageMap[ext] in LanguageModules && LanguageMap[ext] in Extractors
    ensures Extractors.Keys == LanguageModules
  {
  }

  /** JavaScript and TypeScript go to the same extractor and so get the same records. */
  lemma ScriptLanguagesShareExtractor(tree: Tree, src: string)
    ensures Extractors["javascript"] == Extractors["typescript"] == JavaScript
    ensures FunctionsFor("javascript", tree, src) == FunctionsFor("typescript", tree, src)
    ensures ClassesFor("javascript", tree, src) == ClassesFor("typescript", tree, src)
    ensures ImportsFor("javascript", tree, src) == ImportsFor("typescript", tree, src)
  {
    JavaScriptExtractor.FunctionsIgnoreLanguage(tree, src, "javascript", "typescript");
  }

  /** `SimpleASTParser`: a parser bound to one language and its extractor. */
  class SimpleASTParser {
    const langName: string
    const extractor: Extractor

    /** A parser is bound to a supported language and to that language's extractor. */
    ghost predicate Valid() {
      langName in LanguageModules && extractor == Extractors[langName]
    }

    /** The part of `__init__` after the language check. */
    constructor (language: string)
      requires language in LanguageModules
      ensures langName == language && extractor == Extractors[language]
      ensures Valid()
    {
      langName := language;
      extractor := Extractors[language];
    }

    /** `extract_functions`: the language name goes along only for JavaScript and TypeScript. */
    method ExtractFunctions(tree: Tree, src: string) returns (functions: seq<FunctionRecord>)
      requires Valid()
      ensures functions == FunctionsFor(langName, tree, src)
      ensures langName == "python" ==> functions == PythonExtractor.Functions(tree, src)
      ensures langName in ScriptLanguages ==> functions == JavaScriptExtractor.Functions(tree, src, langName)
      ensures langName == "go" ==> functions == GoExtractor.Functions(tree, src)
      ensures langName == "rust" ==> functions == RustExtractor.Functions(tree, src)
    {
      if langName in ScriptLanguages {
        functions := JavaScriptExtractor.ExtractFunctions(tree, src, langName);
      } else if extractor == Python {
        functions := PythonExtractor.ExtractFunctions(tree, src);
      } else if extractor == Go {
        functions := GoExtractor.ExtractFunctions(tree, src);
      } else {
        functions := RustExtractor.ExtractFunctions(tree, src);
      }
    }

    /** `extract_classes`: the extractor's class walk. */
    method ExtractClasses(tree: Tree, src: string) returns (classes: seq<TypeRecord>)
      requires Valid()
      ensures classes == ClassesFor(langName, tree, src)
      ensures langName == "python" ==> classes == PythonExtractor.Classes(tree, src)
      ensures langName in ScriptLanguages ==> classes == JavaScriptExtractor.Classes(tree, src)
      ensures langName == "go" ==> classes == GoExtractor.Classes(tree, src)
      ensures langName == "rust" ==> classes == RustExtractor.Classes(tree, src)
    {
      match extractor
      case Python => classes := PythonExtractor.ExtractClasses(tree, src);
      case JavaScript => classes := JavaScriptExtractor.ExtractClasses(tree, src);
      case Go => classes := GoExtractor.ExtractClasses(tree, src);
      case Rust => classes := RustExtractor.ExtractClasses(tree, src);
    }

    /** `extract_imports`: the extractor's import walk. */
    method ExtractImports(tree: Tree, src: string) returns (imports: seq<string>)
      requires Valid()
      ensures imports == ImportsFor(langName, tree, src)
      ensures langName == "python" ==> imports == PythonExtractor.Imports(tree, src)
      ensures langName in ScriptLanguages ==> imports == JavaScriptExtractor.Imports(tree, src)
      ensures langName == "go" ==> imports == GoExtractor.Imports(tree, src)
      ensures langName == "rust" ==> imports == RustExtractor.Imports(tree, src)
    {
      match extractor
      case Python => imports := PythonExtractor.ExtractImports(tree, src);
      case JavaScript => imports := JavaScriptExtractor.ExtractImports(tree, src);
      case Go => imports := GoExtractor.ExtractImports(tree, src);
      case Rust => imports := RustExtractor.ExtractImports(tree, src);
    }

    /**
     * `extract_semantic_analysis`: the file path, the language, the three
     * extractions of the same tree and the method tag. The record is fixed by
     * the parser's language and the inputs, so two calls give equal records.
     */
    method ExtractSemanticAnalysis(tree: Tree, src: string, filePath: string) returns (r: FileSemanticRecord)
      requires Valid()
      ensures r.filePath == filePath && r.language == langName && r.analysisMethod == "simplified_ast"
      ensures r.functions == FunctionsFor(langName, tree, src)
      ensures r.classes == ClassesFor(langName, tree, src)
      ensures r.imports == ImportsFor(langName, tree, src)
    {
      var functions := ExtractFunctions(tree, src);
      var classes := ExtractClasses(tree, src);
      var imports := ExtractImports(tree, src);
      r := FileSemanticRecord(filePath, langName, functions, classes, imports, "simplified_ast");
    }
  }

  /**
   * `SimpleASTParser(language)`: raises ValueError for a language that has no
   * grammar module; otherwise binds the language and the extractor the table
   * names for it.
   */
  method NewParser(language: string := "python") returns (r: Result<SimpleASTParser, string>)
    ensures r.Failure? <==> language !in LanguageModules
    ensures r.Failure? ==> r.error == "Unsupported language: " + language
    ensures r.Success? ==> fresh(r.value) && r.value.Valid()
    ensures r.Success? ==> r.value.langName == language && r.value.extractor == Extractors[language]
  {
    if language !in LanguageModules {
      return Failure("Unsupported language: " + language);
    }
    var parser := new SimpleASTParser(language);
    return Success(parser);
  }
}
