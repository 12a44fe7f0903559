/** `download_files`: fetch each file id in turn, keep the local path of
    every file that was saved, and skip the ids whose fetch failed. The
    metadata lookup, the download and the write are one oracle per id. */
module Downloader {
  import opened Wrappers
  import opened Content
  import opened Sequences
  import Text

  /** Where a fetch failed: `retrieve_metadata`, `download` or `write_to_file`. */
  datatype FetchStage = Metadata | Download | Write

  /** The outcome of fetching one id: saved under the metadata's filename, or
      an exception raised at one stage. */
  datatype FetchOutcome = Saved(filename: string) | Failed(stage: FetchStage)

  /** The images directory, `math_solver_output/images`. */
  const ImagesDir := "math_solver_output/images"

  /** `str(self.images_dir / filename)`. */
  function ImagePath(filename: string): string
  {
    ImagesDir + "/" + filename
  }

  /** The local path an outcome adds to the result, if any. */
  function SavedPath(outcome: FetchOutcome): Option<string>
  {
    if outcome.Saved? then Some(ImagePath(outcome.filename)) else None
  }

  /** Specification of `download_files`. */
  function Downloaded(fileIds: seq<Value>, fetch: Value -> FetchOutcome): seq<string>
  {
    Collect(fileIds, (id: Value) => SavedPath(fetch(id)))
  }

  /** `download_files`: a loop whose body catches every fetch failure. */
  method DownloadFiles(fileIds: seq<Value>, fetch: Value -> FetchOutcome)
    returns (downloadedFiles: seq<string>)
    ensures downloadedFiles == Downloaded(fileIds, fetch)
  {
    downloadedFiles := [];
    for k := 0 to |fileIds|
      invariant downloadedFiles == Downloaded(fileIds[..k], fetch)
    {
      var fileId := fileIds[k];
      assert fileIds[..k + 1] == fileIds[..k] + [fileId];
      CollectSnoc(fileIds[..k], fileId, (id: Value) => SavedPath(fetch(id)));
      match fetch(fileId) {
        case Saved(filename) =>
          downloadedFiles := downloadedFiles + [ImagePath(filename)];
        case Failed(_) =>
      }
    }
    assert fileIds[..|fileIds|] == fileIds;
  }

  /** A path is returned exactly when some id's fetch saved a file under
      that name, and then the path is the images directory joined with it. */
  lemma DownloadedMembership(fileIds: seq<Value>, fetch: Value -> FetchOutcome, path: string)
    ensures path in Downloaded(fileIds, fetch) <==>
            exists k :: 0 <= k < |fileIds| && fetch(fileIds[k]).Saved?
                        && path == ImagePath(fetch(fileIds[k]).filename)
  {
    CollectMembership(fileIds, (id: Value) => SavedPath(fetch(id)), path);
  }

  /** Downloads of a split id list keep the order of the parts: a failure
      in one part does not disturb the other. */
  lemma DownloadedAppend(a: seq<Value>, b: seq<Value>, fetch: Value -> FetchOutcome)
    ensures Downloaded(a + b, fetch) == Downloaded(a, fetch) + Downloaded(b, fetch)
  {
    CollectAppend(a, b, (id: Value) => SavedPath(fetch(id)));
  }

  /** There are never more paths than ids, and exactly as many when every
      fetch succeeds. */
  lemma DownloadedCount(fileIds: seq<Value>, fetch: Value -> FetchOutcome)
    ensures |Downloaded(fileIds, fetch)| <= |fileIds|
    ensures |Downloaded(fileIds, fetch)| == |fileIds| <==>
            forall k :: 0 <= k < |fileIds| ==> fetch(fileIds[k]).Saved?
  {
    CollectKeepsAll(fileIds, (id: Value) => SavedPath(fetch(id)));
  }

  /** Each downloaded file's name is the name the metadata gave it. */
  lemma ImagePathName(filename: string)
    requires '/' !in filename
    ensures Text.Basename(ImagePath(filename)) == filename
  {
    Text.BasenameOfJoin(ImagesDir, filename);
  }
}
