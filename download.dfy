/**
 * The download endpoint of the file API (`GET /download/:filename`): the
 * requested name is validated before the filesystem is looked at, then
 * joined under the output directory and served when it exists.
 */
module Download {
  import opened FilePath

  /** The HTTP outcome of a download request. */
  datatype Response =
    | BadRequest                // 400, "invalid file name"
    | NotFound                  // 404, "file not found"
    | ServeFile(path: string)   // 200 with the file's contents

  /** The directory the API serves files from. */
  const OutputDir: string := "outputs"

  /** The security check of `downloadFile`: no ".." and no "/" anywhere in the name. */
  predicate ValidName(name: string): (ok: bool)
    ensures ok <==> !Contains(name, "..") && '/' !in name
  {
    ContainsChar(name, '/');
    !Contains(name, "..") && !Contains(name, "/")
  }

  /**
   * `downloadFile`, with the filesystem given as the set of paths that exist.
   * A rejected name never reaches the filesystem; an accepted one is served
   * from inside the output directory or reported missing.
   */
  function DownloadFile(name: string, existing: set<string>): (r: Response)
    ensures r.BadRequest? <==> !ValidName(name)
    ensures r.ServeFile? ==> r.path in existing && Under(r.path, OutputDir)
  {
    if !ValidName(name) then BadRequest
    else
      var path := Join(OutputDir, name);
      AcceptedPath(name);
      if path !in existing then NotFound else ServeFile(path)
  }

  /** Both halves of the guard, stated on characters: ".." as a substring, '/' as a character. */
  lemma RejectsTraversal(name: string, existing: set<string>)
    ensures DownloadFile(name, existing) == BadRequest <==> Contains(name, "..") || '/' in name
  {
    ContainsChar(name, '/');
  }

  /** The verdict on a name does not depend on what exists: validation comes before any access. */
  lemma ValidationBeforeAccess(name: string, fs1: set<string>, fs2: set<string>)
    ensures DownloadFile(name, fs1) == BadRequest <==> DownloadFile(name, fs2) == BadRequest
    ensures DownloadFile(name, fs1) == BadRequest ==> DownloadFile(name, fs1) == DownloadFile(name, fs2)
  {
  }

  /**
   * An accepted name joins to the output directory itself ("" or ".") or to
   * its direct child of that name; never to anything outside it.
   */
  lemma AcceptedPath(name: string)
    requires ValidName(name)
    ensures Join(OutputDir, name) == if name == "" || name == "." then OutputDir else OutputDir + "/" + name
    ensures Under(Join(OutputDir, name), OutputDir)
  {
    ContainsChar(name, '/');
    assert name != ".." by {
      if name == ".." {
        assert OccursAt(name, "..", 0);
      }
    }
    JoinName(OutputDir, name);
    var child := OutputDir + "/" + name;
    assert child[..|OutputDir + "/"|] == OutputDir + "/";
  }

  /** An accepted name is served exactly when its joined path exists, and reported missing otherwise. */
  lemma AcceptedOutcome(name: string, existing: set<string>)
    requires ValidName(name)
    ensures var path := Join(OutputDir, name);
      DownloadFile(name, existing) == if path in existing then ServeFile(path) else NotFound
  {
  }
}
