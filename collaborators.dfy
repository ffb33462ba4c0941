/**
 * What the worker's collaborators can do, as data: the outcomes of the
 * external services (S3 transfer, frame extraction, archiving, upload), the
 * calls made on them, and the effect of file removals on the local
 * filesystem, which is the set of paths that exist.
 */
module Collaborators {
  import opened FilePath

  /** `DownloadVideo` creates the local file, then fetches into it. */
  datatype DownloadResult =
    | Downloaded
    | CreateFailed(err: string)      // the local file could not be created
    | TransferFailed(err: string)    // created, then the fetch failed

  /** The frame extractor: an error or the paths of the frames it wrote. */
  datatype ExtractResult = ExtractFailed(err: string) | Extracted(frames: seq<string>)

  /** `CreateZipFile`: the destination is created first, then the entries are added. */
  datatype ZipResult =
    | Zipped
    | ZipCreateFailed(err: string)   // the destination could not be created
    | ZipEntryFailed(err: string)    // created, then adding an entry failed

  datatype UploadResult = Uploaded | UploadFailed(err: string)

  /** A call made on a collaborator, in the order the worker makes them. */
  datatype Call =
    | DeleteMessage(receiptHandle: string)
    | Download(key: string, localPath: string)
    | ExtractFrames(videoPath: string, outputDir: string)
    | CreateZip(files: seq<string>, zipPath: string)
    | UploadZip(localPath: string, key: string)

  /** The files named by a list, such as the frames an extraction wrote. */
  function Written(files: seq<string>): (r: set<string>)
    ensures forall f :: f in r <==> f in files
  {
    if files == [] then {} else {files[0]} + Written(files[1..])
  }

  // ---------------------------------------------------------------------
  // Directories

  /** The prefixes `d[..j]`, 0 < j < i, that a '/' of `d` follows. */
  function Ancestors(d: string, i: nat): set<string>
    requires i <= |d|
  {
    if i == 0 then {}
    else Ancestors(d, i - 1) + (if i - 1 > 0 && d[i - 1] == '/' then {d[..i - 1]} else {})
  }

  lemma {:induction false} AncestorsSpec(d: string, i: nat, p: string)
    requires i <= |d|
    ensures p in Ancestors(d, i) <==> p != "" && |p| < i && HasPrefix(d, p + "/")
  {
    if i > 0 {
      AncestorsSpec(d, i - 1, p);
      var j := i - 1;
      if p != "" && |p| == j && HasPrefix(d, p + "/") {
        assert d[j] == (p + "/")[j];
        assert p == d[..j];
      }
      if j > 0 && d[j] == '/' && p == d[..j] {
        assert d[..j + 1] == p + "/";
      }
    }
  }

  /** The directories in place after `os.MkdirAll(d)`: `d` and all its ancestors. */
  function MkdirAll(d: string): set<string> {
    (if d == "" then {} else {d}) + Ancestors(d, |d|)
  }

  /** `os.MkdirAll(d)` leaves in place exactly the non-empty paths `d` lies under. */
  lemma MkdirAllSpec(d: string, p: string)
    ensures p in MkdirAll(d) <==> p != "" && Under(d, p)
  {
    AncestorsSpec(d, |d|, p);
  }

  // ---------------------------------------------------------------------
  // Removals

  /** A removal registered with `defer`: `os.Remove` or `os.RemoveAll`. */
  datatype Cleanup = Remove(path: string) | RemoveAll(path: string)

  /** Whether `c` deletes `p`: `Remove` deletes its path, `RemoveAll` its whole subtree. */
  predicate Removes(c: Cleanup, p: string) {
    match c
    case Remove(q) => p == q
    case RemoveAll(d) => Under(p, d)
  }

  /** The filesystem after one removal. */
  function Apply(fs: set<string>, c: Cleanup): set<string> {
    match c
    case Remove(q) => fs - {q}
    case RemoveAll(d) => set p | p in fs && !Under(p, d)
  }

  /** The removals registered with `defer` so far; the last registered is on top. */
  datatype DeferStack = Empty | Deferred(top: Cleanup, below: DeferStack)

  /** The filesystem after the registered removals run, top first. */
  function Swept(fs: set<string>, d: DeferStack): set<string> {
    match d
    case Empty => fs
    case Deferred(c, below) => Swept(Apply(fs, c), below)
  }

  /** Whether some removal in `d` deletes `p`. */
  predicate RemovedBy(d: DeferStack, p: string) {
    match d
    case Empty => false
    case Deferred(c, below) => Removes(c, p) || RemovedBy(below, p)
  }

  /** Removals only remove: what is left was there before, and nothing a
      registered removal targets is left. */
  lemma {:induction false} SweptRemoves(fs: set<string>, d: DeferStack, p: string)
    ensures p in Swept(fs, d) <==> p in fs && !RemovedBy(d, p)
  {
    match d
    case Empty =>
    case Deferred(c, below) =>
      SweptRemoves(Apply(fs, c), below, p);
  }
}
