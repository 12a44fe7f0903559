/** `generate_markdown_report`: the report document, section by section, as
    specification functions, and the method that grows it with `+=` the way
    the source does. */
module Markdown {
  import opened Content
  import opened Sequences
  import opened Text
  import Extractor
  import ReportName

  /** Everything a report is made of, in the source's terms. */
  datatype Report = Report(
    timestamp: string,
    question: string,
    texts: seq<string>,
    codes: seq<string>,
    files: seq<string>)

  /** The saved report: the path `generate_markdown_report` returns and the
      document it writes there. */
  datatype ReportFile = ReportFile(path: string, markdown: string)

  function TitleSection(timestamp: string, question: string): string
  {
    "# Math Problem Solution Report\n\n**Generated:** " + timestamp
      + "\n**Question:** " + question + "\n\n---\n\n"
  }

  function ProblemSection(question: string): string
  {
    "## Problem Statement\n\n" + question + "\n\n---\n\n"
  }

  const SolutionHeading := "## Solution\n\n"

  /** Each narrative text followed by a blank line. */
  function SolutionPieces(texts: seq<string>): seq<string>
  {
    seq(|texts|, i requires 0 <= i < |texts| => texts[i] + "\n\n")
  }

  function SolutionSection(texts: seq<string>): string
  {
    SolutionHeading + Concat(SolutionPieces(texts))
  }

  const CodeHeading := "---\n\n## Code Used\n\n"

  /** Code block number `n`, as a fenced python block under its own heading. */
  function CodeBlockEntry(n: nat, code: string): string
  {
    "### Code Block " + NatToString(n) + "\n\n```python\n" + code + "\n```\n\n"
  }

  /** The code blocks numbered from 1 in order, as `enumerate(code_blocks, 1)`. */
  function CodePieces(codes: seq<string>): seq<string>
  {
    seq(|codes|, i requires 0 <= i < |codes| => CodeBlockEntry(i + 1, codes[i]))
  }

  function CodeSection(codes: seq<string>): string
  {
    if codes == [] then "" else CodeHeading + Concat(CodePieces(codes))
  }

  const VisualizationsHeading := "---\n\n## Generated Visualizations\n\n"

  /** The image link of a file, relative to the reports directory. */
  function ImageLink(name: string): string
  {
    "![" + name + "](../images/" + name + ")\n\n"
  }

  function ImagePieces(files: seq<string>): seq<string>
  {
    seq(|files|, i requires 0 <= i < |files| => ImageLink(Basename(files[i])))
  }

  function VisualizationsSection(files: seq<string>): string
  {
    if files == [] then "" else VisualizationsHeading + Concat(ImagePieces(files))
  }

  function FooterSection(timestamp: string, fileCount: nat): string
  {
    "---\n\n## Report Details\n\n- **Generated by:** Claude 4 Math Solver\n"
      + "- **Model:** claude-sonnet-4-20250514\n- **Timestamp:** " + timestamp
      + "\n- **Files created:** " + NatToString(fileCount) + " visualization(s)\n\n---\n\n"
      + "*This report was automatically generated using Claude's code execution capabilities.*\n"
  }

  /** The document, in its fixed section order: title, problem statement,
      solution, code used (if any), generated visualizations (if any), report
      details. */
  function Render(r: Report): string
  {
    TitleSection(r.timestamp, r.question) + ProblemSection(r.question)
      + SolutionSection(r.texts) + CodeSection(r.codes)
      + VisualizationsSection(r.files) + FooterSection(r.timestamp, |r.files|)
  }

  /** The f-string `{code}` of an extracted code value: a string prints as
      itself; any other value prints as Python's `str()` of it, which is the
      parameter `strOther`. */
  function Display(v: Value, strOther: Value -> string): string
  {
    if v.Str? then v.s else strOther(v)
  }

  function DisplayAll(codes: seq<Value>, strOther: Value -> string): seq<string>
  {
    seq(|codes|, i requires 0 <= i < |codes| => Display(codes[i], strOther))
  }

  /** The report `generate_markdown_report` renders for a solve result and
      the files that were downloaded for it. */
  function ReportOf(result: SolveResult, downloadedFiles: seq<string>, strOther: Value -> string): Report
  {
    Report(result.timestamp, result.question,
           Extractor.TextContent(result.response.content),
           DisplayAll(Extractor.CodeBlocks(result.response.content), strOther),
           downloadedFiles)
  }

  /** The solution heading, then the loop that adds the main explanation. */
  method AppendSolution(markdown: string, textContent: seq<string>) returns (out: string)
    ensures out == markdown + SolutionSection(textContent)
  {
    out := markdown + SolutionHeading;
    for i := 0 to |textContent|
      invariant out == markdown + SolutionHeading + Concat(SolutionPieces(textContent)[..i])
    {
      ConcatSnoc(SolutionPieces(textContent), i);
      AppendAssoc(markdown + SolutionHeading, Concat(SolutionPieces(textContent)[..i]),
                  textContent[i] + "\n\n");
      out := out + (textContent[i] + "\n\n");
    }
    assert SolutionPieces(textContent)[..|textContent|] == SolutionPieces(textContent);
    AppendAssoc(markdown, SolutionHeading, Concat(SolutionPieces(textContent)));
  }

  /** The code section, only when there is code, with its loop over
      `enumerate(code_blocks, 1)`. */
  method AppendCodeSection(markdown: string, codes: seq<string>) returns (out: string)
    ensures out == markdown + CodeSection(codes)
  {
    if codes == [] {
      assert markdown + "" == markdown;
      return markdown;
    }
    out := markdown + CodeHeading;
    for i := 1 to |codes| + 1
      invariant out == markdown + CodeHeading + Concat(CodePieces(codes)[..i - 1])
    {
      ConcatSnoc(CodePieces(codes), i - 1);
      var entry := CodeBlockEntry(i, codes[i - 1]);
      AppendAssoc(markdown + CodeHeading, Concat(CodePieces(codes)[..i - 1]), entry);
      out := out + entry;
    }
    assert CodePieces(codes)[..|codes|] == CodePieces(codes);
    AppendAssoc(markdown, CodeHeading, Concat(CodePieces(codes)));
  }

  /** The images section, only when files were downloaded, with its loop
      over `downloaded_files`. */
  method AppendVisualizations(markdown: string, downloadedFiles: seq<string>) returns (out: string)
    ensures out == markdown + VisualizationsSection(downloadedFiles)
  {
    if downloadedFiles == [] {
      assert markdown + "" == markdown;
      return markdown;
    }
    out := markdown + VisualizationsHeading;
    for i := 0 to |downloadedFiles|
      invariant out == markdown + VisualizationsHeading + Concat(ImagePieces(downloadedFiles)[..i])
    {
      ConcatSnoc(ImagePieces(downloadedFiles), i);
      var filename := Basename(downloadedFiles[i]);
      assert ImageLink(filename) == ImagePieces(downloadedFiles)[i];
      AppendAssoc(markdown + VisualizationsHeading, Concat(ImagePieces(downloadedFiles)[..i]),
                  ImageLink(filename));
      out := out + ImageLink(filename);
    }
    assert ImagePieces(downloadedFiles)[..|downloadedFiles|] == ImagePieces(downloadedFiles);
    AppendAssoc(markdown, VisualizationsHeading, Concat(ImagePieces(downloadedFiles)));
  }

  /** The document built by `+=`, one section after the other. */
  method BuildMarkdown(r: Report) returns (markdown: string)
    ensures markdown == Render(r)
  {
    markdown := TitleSection(r.timestamp, r.question) + ProblemSection(r.question);
    markdown := AppendSolution(markdown, r.texts);
    markdown := AppendCodeSection(markdown, r.codes);
    markdown := AppendVisualizations(markdown, r.files);
    markdown := markdown + FooterSection(r.timestamp, |r.files|);
  }

  /** `generate_markdown_report`, up to the write: gathers text and code,
      derives the file path from `stamp` (the `%Y%m%d_%H%M%S` text of the
      current time) and renders the document. */
  method GenerateMarkdownReport(result: SolveResult, downloadedFiles: seq<string>,
                                stamp: string, strOther: Value -> string)
    returns (saved: ReportFile)
    ensures saved == ReportFile(ReportName.ReportPath(stamp, result.question),
                                Render(ReportOf(result, downloadedFiles, strOther)))
  {
    var response, question, timestamp := result.response, result.question, result.timestamp;
    var codeBlocks := Extractor.ExtractCodeBlocks(response);
    var textContent := Extractor.GatherText(response);
    var filepath := ReportName.ReportsDir + "/" + ReportName.ReportFilename(stamp, question);
    var markdown := BuildMarkdown(Report(timestamp, question, textContent,
                                         DisplayAll(codeBlocks, strOther), downloadedFiles));
    saved := ReportFile(filepath, markdown);
  }

  lemma Regroup(h: string, x: string, y: string, z: string)
    ensures h + (x + y + z) == h + x + y + z
  {
  }

  /** Two texts that differ only between a common prefix and a common suffix
      are equal exactly when the middles are. */
  lemma MiddleCancel(pre: string, a: string, b: string, y: string, z: string)
    ensures pre + a + y + z == pre + b + y + z <==> a == b
  {
    if pre + a + y + z == pre + b + y + z {
      assert |a| == |b|;
      assert a == (pre + a + y + z)[|pre|..|pre| + |a|];
      assert b == (pre + b + y + z)[|pre|..|pre| + |b|];
    }
  }

  lemma DropEmpty(x: string, e1: string, e2: string, y: string)
    requires e1 == [] && e2 == []
    ensures x + e1 + e2 + y == x + y
  {
  }

  lemma AppendAssoc(x: string, y: string, z: string)
    ensures x + y + z == x + (y + z)
  {
  }

  /** Text `i` of the solution section comes after the heading and the texts
      before it, each followed by a blank line. */
  lemma {:induction false} SolutionTextAt(texts: seq<string>, i: nat)
    requires i < |texts|
    ensures SolutionSection(texts) ==
            SolutionHeading + Concat(SolutionPieces(texts[..i])) + (texts[i] + "\n\n")
              + Concat(SolutionPieces(texts)[i + 1..])
  {
    var p := SolutionPieces(texts);
    ConcatAt(p, i);
    assert p[i] == texts[i] + "\n\n";
    assert p[..i] == SolutionPieces(texts[..i]);
    Regroup(SolutionHeading, Concat(p[..i]), p[i], Concat(p[i + 1..]));
  }

  /** Block `i` (0-based) of the code section is numbered `i + 1` and fences
      `codes[i]`; the blocks before it are those of `codes[..i]`, numbered as
      they are there. */
  lemma {:induction false} CodeBlockAt(codes: seq<string>, i: nat)
    requires i < |codes|
    ensures CodeSection(codes) ==
            CodeHeading + Concat(CodePieces(codes[..i])) + CodeBlockEntry(i + 1, codes[i])
              + Concat(CodePieces(codes)[i + 1..])
  {
    var p := CodePieces(codes);
    ConcatAt(p, i);
    assert p[i] == CodeBlockEntry(i + 1, codes[i]);
    assert p[..i] == CodePieces(codes[..i]);
    Regroup(CodeHeading, Concat(p[..i]), p[i], Concat(p[i + 1..]));
  }

  /** Three code blocks are numbered 1, 2 and 3, in appearance order. */
  lemma CodeSectionOfThree(c1: string, c2: string, c3: string)
    ensures CodeSection([c1, c2, c3]) ==
            CodeHeading + CodeBlockEntry(1, c1) + CodeBlockEntry(2, c2) + CodeBlockEntry(3, c3)
    ensures NatToString(1) == "1" && NatToString(2) == "2" && NatToString(3) == "3"
  {
    var p := CodePieces([c1, c2, c3]);
    assert p == [CodeBlockEntry(1, c1), CodeBlockEntry(2, c2), CodeBlockEntry(3, c3)];
    assert Concat(p) == p[0] + Concat(p[1..]);
    assert Concat(p[1..]) == p[1] + Concat(p[2..]);
    assert Concat(p[2..]) == p[2] + Concat(p[3..]);
    assert p[3..] == [];
  }

  /** Image `i` of the visualizations section links the basename of
      `files[i]` under `../images/`. */
  lemma {:induction false} ImageLinkAt(files: seq<string>, i: nat)
    requires i < |files|
    ensures VisualizationsSection(files) ==
            VisualizationsHeading + Concat(ImagePieces(files[..i])) + ImageLink(Basename(files[i]))
              + Concat(ImagePieces(files)[i + 1..])
  {
    var p := ImagePieces(files);
    ConcatAt(p, i);
    assert p[i] == ImageLink(Basename(files[i]));
    assert p[..i] == ImagePieces(files[..i]);
    var h, x, y, z := VisualizationsHeading, Concat(p[..i]), p[i], Concat(p[i + 1..]);
    assert VisualizationsSection(files) == h + (x + y + z);
    Regroup(h, x, y, z);
  }

  /** The optional sections are absent exactly when there is nothing to put
      in them, and otherwise open with their heading. */
  lemma OptionalSections(codes: seq<string>, files: seq<string>)
    ensures CodeSection(codes) == "" <==> codes == []
    ensures codes != [] ==> CodeSection(codes)[..|CodeHeading|] == CodeHeading
    ensures VisualizationsSection(files) == "" <==> files == []
    ensures files != [] ==> VisualizationsSection(files)[..|VisualizationsHeading|] == VisualizationsHeading
  {
  }

  /** The footer's "Files created" count can be read back: two footers for
      the same timestamp are equal only for equal counts. */
  lemma FooterDeterminesCount(timestamp: string, m: nat, n: nat)
    ensures FooterSection(timestamp, m) == FooterSection(timestamp, n) <==> m == n
  {
    var pre := "---\n\n## Report Details\n\n- **Generated by:** Claude 4 Math Solver\n"
      + "- **Model:** claude-sonnet-4-20250514\n- **Timestamp:** " + timestamp
      + "\n- **Files created:** ";
    MiddleCancel(pre, NatToString(m), NatToString(n), " visualization(s)\n\n---\n\n",
      "*This report was automatically generated using Claude's code execution capabilities.*\n");
    assert FooterSection(timestamp, m) == FooterSection(timestamp, n) <==> NatToString(m) == NatToString(n);
    NatToStringInjective(m, n);
  }

  /** A report with no code and no files has neither optional section, and
      its footer counts no files. */
  lemma RenderWithoutOptionals(r: Report)
    requires r.codes == [] && r.files == []
    ensures Render(r) == TitleSection(r.timestamp, r.question) + ProblemSection(r.question)
                           + SolutionSection(r.texts) + FooterSection(r.timestamp, 0)
  {
    var a := TitleSection(r.timestamp, r.question) + ProblemSection(r.question)
               + SolutionSection(r.texts);
    DropEmpty(a, CodeSection(r.codes), VisualizationsSection(r.files), FooterSection(r.timestamp, 0));
  }

  /** A response with no content renders only the fixed sections, with an
      empty solution and no files counted. */
  lemma EmptyResponseReport(question: string, timestamp: string, strOther: Value -> string)
    ensures Render(ReportOf(SolveResult(Response([]), question, timestamp), [], strOther)) ==
            TitleSection(timestamp, question) + ProblemSection(question) + SolutionHeading
              + FooterSection(timestamp, 0)
  {
    var r := ReportOf(SolveResult(Response([]), question, timestamp), [], strOther);
    assert DisplayAll([], strOther) == [];
    assert r == Report(timestamp, question, [], [], []);
    assert SolutionPieces([]) == [];
    assert SolutionSection([]) == SolutionHeading;
    RenderWithoutOptionals(r);
  }
}
