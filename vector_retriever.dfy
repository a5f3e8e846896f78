/**
 * The markdown builder of the retriever: three lists of stored payloads are
 * rendered as a code-structure section, an import-dependency section and a
 * past-review-learnings section, and the lines are joined with newlines.
 */
module VectorRetriever {
  import opened Wrappers
  import opened PyStrings
  import opened SyntaxTree

  /** A stored code-graph payload; `None` is a key the payload does not have. */
  datatype CodeGraphPayload = CodeGraphPayload(
    filePath: Option<string>,
    functions: Option<seq<string>>,
    classes: Option<seq<string>>,
    nodeCount: Option<int>,
    edgeCount: Option<int>)

  /** A stored import-file payload. */
  datatype ImportFilePayload = ImportFilePayload(
    filePath: Option<string>,
    imports: Option<seq<string>>)

  /** A stored review-learning payload. */
  datatype LearningPayload = LearningPayload(
    commitMessage: Option<string>,
    botComment: Option<string>,
    hasUserFeedback: Option<bool>,
    userFeedback: Option<string>)

  const CodeHeader: string := "## Code Structure\n"
  const ImportHeader: string := "## Import Dependencies\n"
  const LearningHeader: string := "## Past Review Learnings\n"

  /** The rendered lines, one function per f-string of the source. */
  function FileLine(path: Option<string>): string
  {
    "**File:** " + path.GetOr("Unknown")
  }

  function FunctionsLine(names: Option<seq<string>>): string
  {
    "- Functions: " + Join(names.GetOr([]), ", ")
  }

  function ClassesLine(names: Option<seq<string>>): string
  {
    "- Classes: " + Join(names.GetOr([]), ", ")
  }

  function ComplexityLine(nodes: Option<int>, edges: Option<int>): string
  {
    "- Complexity: " + IntToString(nodes.GetOr(0)) + " nodes, " + IntToString(edges.GetOr(0)) + " edges\n"
  }

  function ImportListLine(imports: Option<seq<string>>): string
  {
    "- Imports: " + Join(imports.GetOr([]), ", ") + "\n"
  }

  function CommitLine(message: Option<string>): string
  {
    "**Commit:** " + message.GetOr("N/A")
  }

  function BotCommentLine(comment: Option<string>): string
  {
    "- Bot Comment: " + comment.GetOr("N/A")
  }

  function FeedbackLine(feedback: Option<string>): string
  {
    "- User Feedback: " + feedback.GetOr("N/A")
  }

  /** The four lines one code graph contributes. */
  function GraphLines(g: CodeGraphPayload): seq<string>
  {
    [FileLine(g.filePath), FunctionsLine(g.functions), ClassesLine(g.classes), ComplexityLine(g.nodeCount, g.edgeCount)]
  }

  /** The two lines one import file contributes. */
  function ImportLines(f: ImportFilePayload): seq<string>
  {
    [FileLine(f.filePath), ImportListLine(f.imports)]
  }

  /** Whether a learning's `has_user_feedback` is truthy (a missing key is not). */
  predicate HasFeedback(l: LearningPayload)
  {
    l.hasUserFeedback == Some(true)
  }

  /** The lines one learning contributes: commit, bot comment, the feedback when flagged, a blank line. */
  function LearningLines(l: LearningPayload): seq<string>
  {
    [CommitLine(l.commitMessage), BotCommentLine(l.botComment)]
    + (if HasFeedback(l) then [FeedbackLine(l.userFeedback)] else [])
    + [""]
  }

  function GraphsLines(gs: seq<CodeGraphPayload>): seq<string>
  {
    if gs == [] then [] else GraphsLines(gs[..|gs| - 1]) + GraphLines(gs[|gs| - 1])
  }

  function ImportsLines(fs: seq<ImportFilePayload>): seq<string>
  {
    if fs == [] then [] else ImportsLines(fs[..|fs| - 1]) + ImportLines(fs[|fs| - 1])
  }

  function LearningsLines(ls: seq<LearningPayload>): seq<string>
  {
    if ls == [] then [] else LearningsLines(ls[..|ls| - 1]) + LearningLines(ls[|ls| - 1])
  }

  /** The number of learnings whose feedback flag is set. */
  function FeedbackCount(ls: seq<LearningPayload>): nat
  {
    if ls == [] then 0 else FeedbackCount(ls[..|ls| - 1]) + (if HasFeedback(ls[|ls| - 1]) then 1 else 0)
  }

  /** A section is its header and its items' lines, or nothing for an empty list. */
  function CodeSection(gs: seq<CodeGraphPayload>): seq<string>
  {
    if gs == [] then [] else [CodeHeader] + GraphsLines(gs)
  }

  function ImportSection(fs: seq<ImportFilePayload>): seq<string>
  {
    if fs == [] then [] else [ImportHeader] + ImportsLines(fs)
  }

  function LearningSection(ls: seq<LearningPayload>): seq<string>
  {
    if ls == [] then [] else [LearningHeader] + LearningsLines(ls)
  }

  /** The `sections` list in full. */
  function Sections(gs: seq<CodeGraphPayload>, fs: seq<ImportFilePayload>, ls: seq<LearningPayload>): seq<string>
  {
    CodeSection(gs) + ImportSection(fs) + LearningSection(ls)
  }

  /** One more item extends a section's lines by that item's lines. */
  lemma GraphsStep(head: seq<string>, gs: seq<CodeGraphPayload>, i: nat)
    requires i < |gs|
    ensures head + GraphsLines(gs[..i]) + GraphLines(gs[i]) == head + GraphsLines(gs[..i + 1])
  {
    assert gs[..i + 1][..i] == gs[..i];
  }

  lemma ImportsStep(head: seq<string>, fs: seq<ImportFilePayload>, i: nat)
    requires i < |fs|
    ensures head + ImportsLines(fs[..i]) + ImportLines(fs[i]) == head + ImportsLines(fs[..i + 1])
  {
    assert fs[..i + 1][..i] == fs[..i];
  }

  lemma LearningsStep(head: seq<string>, ls: seq<LearningPayload>, i: nat)
    requires i < |ls|
    ensures head + LearningsLines(ls[..i]) + LearningLines(ls[i]) == head + LearningsLines(ls[..i + 1])
  {
    assert ls[..i + 1][..i] == ls[..i];
  }

  /** Appending a graph's lines one at a time appends `GraphLines`. */
  lemma GraphAppended(before: seq<string>, g: CodeGraphPayload, out: seq<string>)
    requires out == before + [FileLine(g.filePath)] + [FunctionsLine(g.functions)]
                    + [ClassesLine(g.classes)] + [ComplexityLine(g.nodeCount, g.edgeCount)]
    ensures out == before + GraphLines(g)
  {
  }

  /** Appending an import file's lines one at a time appends `ImportLines`. */
  lemma ImportAppended(before: seq<string>, f: ImportFilePayload, out: seq<string>)
    requires out == before + [FileLine(f.filePath)] + [ImportListLine(f.imports)]
    ensures out == before + ImportLines(f)
  {
  }

  /** Appending a learning's lines one at a time, the feedback line only when flagged, appends `LearningLines`. */
  lemma LearningAppended(before: seq<string>, l: LearningPayload, feedback: seq<string>, out: seq<string>)
    requires feedback == (if HasFeedback(l) then [FeedbackLine(l.userFeedback)] else [])
    requires out == before + [CommitLine(l.commitMessage)] + [BotCommentLine(l.botComment)] + feedback + [""]
    ensures out == before + LearningLines(l)
  {
  }

  /** The code-graph block of `format_for_ai`: a header, then four lines per graph. */
  method AppendCodeStructure(sections: seq<string>, codeGraphs: seq<CodeGraphPayload>) returns (out: seq<string>)
    ensures out == sections + CodeSection(codeGraphs)
  {
    out := sections;
    if codeGraphs != [] {
      out := out + [CodeHeader];
      ghost var head := out;
      for i := 0 to |codeGraphs|
        invariant out == head + GraphsLines(codeGraphs[..i])
      {
        var graph := codeGraphs[i];
        ghost var before := out;
        out := out + [FileLine(graph.filePath)];
        out := out + [FunctionsLine(graph.functions)];
        out := out + [ClassesLine(graph.classes)];
        out := out + [ComplexityLine(graph.nodeCount, graph.edgeCount)];
        GraphAppended(before, graph, out);
        GraphsStep(head, codeGraphs, i);
      }
      assert codeGraphs[..|codeGraphs|] == codeGraphs;
      AppendAssoc(sections, [CodeHeader], GraphsLines(codeGraphs));
    }
  }

  /** The import-file block: a header, then two lines per file. */
  method AppendImportDependencies(sections: seq<string>, importFiles: seq<ImportFilePayload>) returns (out: seq<string>)
    ensures out == sections + ImportSection(importFiles)
  {
    out := sections;
    if importFiles != [] {
      out := out + [ImportHeader];
      ghost var head := out;
      for i := 0 to |importFiles|
        invariant out == head + ImportsLines(importFiles[..i])
      {
        var imp := importFiles[i];
        ghost var before := out;
        out := out + [FileLine(imp.filePath)];
        out := out + [ImportListLine(imp.imports)];
        ImportAppended(before, imp, out);
        ImportsStep(head, importFiles, i);
      }
      assert importFiles[..|importFiles|] == importFiles;
      AppendAssoc(sections, [ImportHeader], ImportsLines(importFiles));
    }
  }

  /** The learnings block: a header, then three or four lines per learning. */
  method AppendLearnings(sections: seq<string>, learnings: seq<LearningPayload>) returns (out: seq<string>)
    ensures out == sections + LearningSection(learnings)
  {
    out := sections;
    if learnings != [] {
      out := out + [LearningHeader];
      ghost var head := out;
      for i := 0 to |learnings|
        invariant out == head + LearningsLines(learnings[..i])
      {
        var learning := learnings[i];
        ghost var before := out;
        out := out + [CommitLine(learning.commitMessage)];
        out := out + [BotCommentLine(learning.botComment)];
        ghost var feedback := [];
        if learning.hasUserFeedback == Some(true) {
          feedback := [FeedbackLine(learning.userFeedback)];
          out := out + [FeedbackLine(learning.userFeedback)];
        }
        out := out + [""];
        LearningAppended(before, learning, feedback, out);
        LearningsStep(head, learnings, i);
      }
      assert learnings[..|learnings|] == learnings;
      AppendAssoc(sections, [LearningHeader], LearningsLines(learnings));
    }
  }

  /** `format_for_ai`: the three blocks in order, joined with newlines. */
  method FormatForAi(codeGraphs: seq<CodeGraphPayload>, importFiles: seq<ImportFilePayload>,
                     learnings: seq<LearningPayload>) returns (text: string)
    ensures text == Join(Sections(codeGraphs, importFiles, learnings), "\n")
  {
    var sections: seq<string> := [];
    sections := AppendCodeStructure(sections, codeGraphs);
    assert sections == CodeSection(codeGraphs);
    sections := AppendImportDependencies(sections, importFiles);
    sections := AppendLearnings(sections, learnings);
    assert sections == Sections(codeGraphs, importFiles, learnings);
    text := Join(sections, "\n");
  }

  /** With nothing retrieved the text is empty. */
  lemma NothingRetrievedGivesEmptyText()
    ensures Sections([], [], []) == []
    ensures Join(Sections([], [], []), "\n") == ""
  {
  }

  /**
   * The text holds every line of the sections list at its offset, each line
   * followed by one newline except the last, which ends the text.
   */
  lemma TextHoldsEveryLine(gs: seq<CodeGraphPayload>, fs: seq<ImportFilePayload>, ls: seq<LearningPayload>, k: nat)
    requires k < |Sections(gs, fs, ls)|
    ensures var lines, text := Sections(gs, fs, ls), Join(Sections(gs, fs, ls), "\n");
            var at := JoinOffset(lines, "\n", k);
            && at + |lines[k]| <= |text| && text[at..at + |lines[k]|] == lines[k]
            && (k + 1 < |lines| ==> at + |lines[k]| < |text| && text[at + |lines[k]|] == '\n')
            && (k + 1 == |lines| ==> at + |lines[k]| == |text|)
  {
    JoinedByChar(Sections(gs, fs, ls), "\n", k);
  }

  /** An item line is blank or begins with `*` or `-`, so it is never a header. */
  predicate ItemLine(line: string)
  {
    line == [] || line[0] == '*' || line[0] == '-'
  }

  lemma {:induction false} GraphsLinesAreItems(gs: seq<CodeGraphPayload>)
    ensures forall k :: 0 <= k < |GraphsLines(gs)| ==> ItemLine(GraphsLines(gs)[k])
  {
    if gs != [] {
      GraphsLinesAreItems(gs[..|gs| - 1]);
    }
  }

  lemma {:induction false} ImportsLinesAreItems(fs: seq<ImportFilePayload>)
    ensures forall k :: 0 <= k < |ImportsLines(fs)| ==> ItemLine(ImportsLines(fs)[k])
  {
    if fs != [] {
      ImportsLinesAreItems(fs[..|fs| - 1]);
    }
  }

  lemma {:induction false} LearningsLinesAreItems(ls: seq<LearningPayload>)
    ensures forall k :: 0 <= k < |LearningsLines(ls)| ==> ItemLine(LearningsLines(ls)[k])
  {
    if ls != [] {
      LearningsLinesAreItems(ls[..|ls| - 1]);
    }
  }

  /** Each code graph adds exactly four lines. */
  lemma {:induction false} GraphsLineCount(gs: seq<CodeGraphPayload>)
    ensures |GraphsLines(gs)| == 4 * |gs|
  {
    if gs != [] {
      GraphsLineCount(gs[..|gs| - 1]);
    }
  }

  /** Each import file adds exactly two lines. */
  lemma {:induction false} ImportsLineCount(fs: seq<ImportFilePayload>)
    ensures |ImportsLines(fs)| == 2 * |fs|
  {
    if fs != [] {
      ImportsLineCount(fs[..|fs| - 1]);
    }
  }

  /** Each learning adds three lines, and one more when its feedback flag is set. */
  lemma {:induction false} LearningsLineCount(ls: seq<LearningPayload>)
    ensures |LearningsLines(ls)| == 3 * |ls| + FeedbackCount(ls)
  {
    if ls != [] {
      LearningsLineCount(ls[..|ls| - 1]);
    }
  }

  /** The section sizes: a header plus its items' lines, or nothing. */
  lemma SectionSizes(gs: seq<CodeGraphPayload>, fs: seq<ImportFilePayload>, ls: seq<LearningPayload>)
    ensures |CodeSection(gs)| == (if gs == [] then 0 else 1 + 4 * |gs|)
    ensures |ImportSection(fs)| == (if fs == [] then 0 else 1 + 2 * |fs|)
    ensures |LearningSection(ls)| == (if ls == [] then 0 else 1 + 3 * |ls| + FeedbackCount(ls))
    ensures |Sections(gs, fs, ls)| == |CodeSection(gs)| + |ImportSection(fs)| + |LearningSection(ls)|
  {
    GraphsLineCount(gs);
    ImportsLineCount(fs);
    LearningsLineCount(ls);
  }

  /** An item line begins with `*` or `-` or is blank, so it is none of the headers. */
  lemma ItemIsNoHeader(line: string)
    requires ItemLine(line)
    ensures line != CodeHeader && line != ImportHeader && line != LearningHeader
  {
    assert CodeHeader[0] == '#' && ImportHeader[0] == '#' && LearningHeader[0] == '#';
  }

  /** Within the code section, only its first line is a header, and that is `CodeHeader`. */
  lemma CodeSectionHeaders(gs: seq<CodeGraphPayload>, i: int)
    requires 0 <= i < |CodeSection(gs)|
    ensures gs != []
    ensures CodeSection(gs)[i] == CodeHeader <==> i == 0
    ensures CodeSection(gs)[i] != ImportHeader && CodeSection(gs)[i] != LearningHeader
  {
    if i > 0 {
      GraphsLinesAreItems(gs);
      ItemIsNoHeader(GraphsLines(gs)[i - 1]);
    }
  }

  /** Within the import section, only its first line is a header, and that is `ImportHeader`. */
  lemma ImportSectionHeaders(fs: seq<ImportFilePayload>, i: int)
    requires 0 <= i < |ImportSection(fs)|
    ensures fs != []
    ensures ImportSection(fs)[i] == ImportHeader <==> i == 0
    ensures ImportSection(fs)[i] != CodeHeader && ImportSection(fs)[i] != LearningHeader
  {
    if i > 0 {
      ImportsLinesAreItems(fs);
      ItemIsNoHeader(ImportsLines(fs)[i - 1]);
    }
  }

  /** Within the learnings section, only its first line is a header, and that is `LearningHeader`. */
  lemma LearningSectionHeaders(ls: seq<LearningPayload>, i: int)
    requires 0 <= i < |LearningSection(ls)|
    ensures ls != []
    ensures LearningSection(ls)[i] == LearningHeader <==> i == 0
    ensures LearningSection(ls)[i] != CodeHeader && LearningSection(ls)[i] != ImportHeader
  {
    if i > 0 {
      LearningsLinesAreItems(ls);
      ItemIsNoHeader(LearningsLines(ls)[i - 1]);
    }
  }

  /**
   * Each header is a line of the output exactly when its list is non-empty,
   * and then at one place only: the start of its section.
   */
  lemma HeaderPositions(gs: seq<CodeGraphPayload>, fs: seq<ImportFilePayload>, ls: seq<LearningPayload>, i: int)
    requires 0 <= i < |Sections(gs, fs, ls)|
    ensures Sections(gs, fs, ls)[i] == CodeHeader <==> gs != [] && i == 0
    ensures Sections(gs, fs, ls)[i] == ImportHeader <==> fs != [] && i == |CodeSection(gs)|
    ensures Sections(gs, fs, ls)[i] == LearningHeader
        <==> ls != [] && i == |CodeSection(gs)| + |ImportSection(fs)|
  {
    var s := Sections(gs, fs, ls);
    var c, m := |CodeSection(gs)|, |ImportSection(fs)|;
    if i < c {
      assert s[i] == CodeSection(gs)[i];
      CodeSectionHeaders(gs, i);
    } else if i < c + m {
      assert s[i] == ImportSection(fs)[i - c];
      ImportSectionHeaders(fs, i - c);
    } else {
      assert s[i] == LearningSection(ls)[i - c - m];
      LearningSectionHeaders(ls, i - c - m);
    }
  }

  /** The code-structure header is present iff there are code graphs. */
  lemma CodeHeaderIffGraphs(gs: seq<CodeGraphPayload>, fs: seq<ImportFilePayload>, ls: seq<LearningPayload>)
    ensures CodeHeader in Sections(gs, fs, ls) <==> gs != []
  {
    var s := Sections(gs, fs, ls);
    if CodeHeader in s {
      var i :| 0 <= i < |s| && s[i] == CodeHeader;
      HeaderPositions(gs, fs, ls, i);
    }
    if gs != [] {
      SectionSizes(gs, fs, ls);
      HeaderPositions(gs, fs, ls, 0);
    }
  }

  /** The import-dependencies header is present iff there are import files. */
  lemma ImportHeaderIffFiles(gs: seq<CodeGraphPayload>, fs: seq<ImportFilePayload>, ls: seq<LearningPayload>)
    ensures ImportHeader in Sections(gs, fs, ls) <==> fs != []
  {
    var s := Sections(gs, fs, ls);
    if ImportHeader in s {
      var i :| 0 <= i < |s| && s[i] == ImportHeader;
      HeaderPositions(gs, fs, ls, i);
    }
    if fs != [] {
      SectionSizes(gs, fs, ls);
      HeaderPositions(gs, fs, ls, |CodeSection(gs)|);
    }
  }

  /** The past-review-learnings header is present iff there are learnings. */
  lemma LearningHeaderIffLearnings(gs: seq<CodeGraphPayload>, fs: seq<ImportFilePayload>, ls: seq<LearningPayload>)
    ensures LearningHeader in Sections(gs, fs, ls) <==> ls != []
  {
    var s := Sections(gs, fs, ls);
    if LearningHeader in s {
      var i :| 0 <= i < |s| && s[i] == LearningHeader;
      HeaderPositions(gs, fs, ls, i);
    }
    if ls != [] {
      SectionSizes(gs, fs, ls);
      HeaderPositions(gs, fs, ls, |CodeSection(gs)| + |ImportSection(fs)|);
    }
  }

  /** Code structure comes before imports, and imports before learnings. */
  lemma SectionOrder(gs: seq<CodeGraphPayload>, fs: seq<ImportFilePayload>, ls: seq<LearningPayload>, i: int, j: int)
    requires 0 <= i < |Sections(gs, fs, ls)| && 0 <= j < |Sections(gs, fs, ls)|
    ensures Sections(gs, fs, ls)[i] == CodeHeader && Sections(gs, fs, ls)[j] == ImportHeader ==> i < j
    ensures Sections(gs, fs, ls)[i] == CodeHeader && Sections(gs, fs, ls)[j] == LearningHeader ==> i < j
    ensures Sections(gs, fs, ls)[i] == ImportHeader && Sections(gs, fs, ls)[j] == LearningHeader ==> i < j
  {
    SectionSizes(gs, fs, ls);
    HeaderPositions(gs, fs, ls, i);
    HeaderPositions(gs, fs, ls, j);
  }

  /** A code graph with no keys at all renders with the defaults. */
  lemma GraphDefaults()
    ensures GraphLines(CodeGraphPayload(None, None, None, None, None))
         == ["**File:** Unknown", "- Functions: ", "- Classes: ", "- Complexity: 0 nodes, 0 edges\n"]
  {
    assert FileLine(None) == "**File:** Unknown";
    assert FunctionsLine(None) == "- Functions: ";
    assert ClassesLine(None) == "- Classes: ";
    assert IntToString(0) == "0";
    assert "- Complexity: " + "0" + " nodes, " + "0" + " edges\n" == "- Complexity: 0 nodes, 0 edges\n";
  }

  /** An import file with no keys renders with the defaults. */
  lemma ImportDefaults()
    ensures ImportLines(ImportFilePayload(None, None)) == ["**File:** Unknown", "- Imports: \n"]
  {
    assert FileLine(None) == "**File:** Unknown";
    assert "- Imports: " + Join([], ", ") + "\n" == "- Imports: \n";
  }

  /** A learning with no keys renders with "N/A" and without a feedback line. */
  lemma LearningDefaults(feedback: Option<string>)
    ensures LearningLines(LearningPayload(None, None, None, feedback))
         == ["**Commit:** N/A", "- Bot Comment: N/A", ""]
    ensures LearningLines(LearningPayload(None, None, Some(true), None))
         == ["**Commit:** N/A", "- Bot Comment: N/A", "- User Feedback: N/A", ""]
  {
    assert CommitLine(None) == "**Commit:** N/A";
    assert BotCommentLine(None) == "- Bot Comment: N/A";
    assert FeedbackLine(None) == "- User Feedback: N/A";
  }
}
