/** One question's path from composed response to saved report, as
    `run_interactive_session` strings the core together: extract file ids,
    download them if there are any, render the report. */
module Pipeline {
  import opened Wrappers
  import opened Content
  import opened Sequences
  import Extractor
  import Downloader
  import ReportName
  import Markdown

  /** The report for one solve result. Extraction may raise, which aborts
      the question; downloads never do. */
  method ProcessResult(result: SolveResult, fetch: Value -> Downloader.FetchOutcome,
                       stamp: string, strOther: Value -> string)
    returns (outcome: Result<Markdown.ReportFile, Extractor.ExtractError>)
    ensures Extractor.FileIds(result.response.content).Failure? ==>
            outcome == Failure(Extractor.FileIds(result.response.content).error)
    ensures Extractor.FileIds(result.response.content).Success? ==>
            var files := Downloader.Downloaded(Extractor.FileIds(result.response.content).value, fetch);
            outcome == Success(Markdown.ReportFile(
                         ReportName.ReportPath(stamp, result.question),
                         Markdown.Render(Markdown.ReportOf(result, files, strOther))))
  {
    var fileIds := Extractor.ExtractFilesFromResponse(result.response);
    if fileIds.Failure? {
      return Failure(fileIds.error);
    }
    var downloadedFiles: seq<string> := [];
    if fileIds.value != [] {
      downloadedFiles := Downloader.DownloadFiles(fileIds.value, fetch);
    }
    assert downloadedFiles == Downloader.Downloaded(fileIds.value, fetch);
    var saved := Markdown.GenerateMarkdownReport(result, downloadedFiles, stamp, strOther);
    return Success(saved);
  }

  /** Of three file ids whose second fetch fails, the report shows the first
      and the third file, in that order, and counts two. */
  lemma PartialFetch(a: Value, b: Value, c: Value, fetch: Value -> Downloader.FetchOutcome,
                     first: string, third: string)
    requires fetch(a) == Downloader.Saved(first) && fetch(b).Failed?
    requires fetch(c) == Downloader.Saved(third)
    requires '/' !in first && '/' !in third
    ensures var files := Downloader.Downloaded([a, b, c], fetch);
            && |files| == 2
            && Markdown.VisualizationsSection(files) ==
               Markdown.VisualizationsHeading + Markdown.ImageLink(first) + Markdown.ImageLink(third)
  {
    var files := Downloader.Downloaded([a, b, c], fetch);
    assert [a, b, c] == [a] + [b] + [c];
    Downloader.DownloadedAppend([a] + [b], [c], fetch);
    Downloader.DownloadedAppend([a], [b], fetch);
    assert [a][1..] == [] && [b][1..] == [] && [c][1..] == [];
    assert Downloader.Downloaded([a], fetch) == [Downloader.ImagePath(first)];
    assert Downloader.Downloaded([b], fetch) == [];
    assert Downloader.Downloaded([c], fetch) == [Downloader.ImagePath(third)];
    assert files == [Downloader.ImagePath(first), Downloader.ImagePath(third)];
    Downloader.ImagePathName(first);
    Downloader.ImagePathName(third);
    var p := Markdown.ImagePieces(files);
    assert p == [Markdown.ImageLink(first), Markdown.ImageLink(third)];
    assert p[2..] == [];
    assert Concat(p[1..]) == p[1] + Concat(p[2..]) == p[1];
    assert Concat(p) == p[0] + Concat(p[1..]) == p[0] + p[1];
    Markdown.AppendAssoc(Markdown.VisualizationsHeading, p[0], p[1]);
  }
}
