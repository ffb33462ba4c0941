/**
 * The archive builder (internal/infrastructure/storage/zip_service.go): it
 * creates the destination, then adds each source file under its base name,
 * stopping at the first source it cannot open.
 *
 * The local filesystem is a map from the paths of readable files to their
 * bytes; creating the destination is an outcome supplied by the caller.
 */
module Archive {
  import opened Wrappers
  import opened FilePath

  type Bytes = seq<bv8>

  /** The readable files of the local filesystem and their contents. */
  type Files = map<string, Bytes>

  datatype Compression = Store | Deflate

  datatype ZipEntry = ZipEntry(name: string, compression: Compression, content: Bytes)

  /** The error `os.Open` reports for a missing file. */
  function OpenError(path: string): string {
    "open " + path + ": no such file or directory"
  }

  /** The entry written for a readable source: its base name, Deflate, its bytes. */
  function EntryFor(fs: Files, path: string): ZipEntry
    requires path in fs
  {
    ZipEntry(Base(path), Deflate, fs[path])
  }

  /** The entries for a list of readable sources, in list order. */
  function Entries(fs: Files, paths: seq<string>): seq<ZipEntry>
    requires forall i :: 0 <= i < |paths| ==> paths[i] in fs
  {
    seq(|paths|, i requires 0 <= i < |paths| => EntryFor(fs, paths[i]))
  }

  /** How many sources, from the front, can be opened. */
  function ReadablePrefix(fs: Files, paths: seq<string>): (k: nat)
    ensures k <= |paths|
    ensures forall j :: 0 <= j < k ==> paths[j] in fs
    ensures k < |paths| ==> paths[k] !in fs
  {
    if paths == [] || paths[0] !in fs then 0
    else 1 + ReadablePrefix(fs, paths[1..])
  }

  /** The writer the entries go through (`zip.Writer`). */
  class ZipWriter {
    var entries: seq<ZipEntry>

    constructor()
      ensures entries == []
    {
      entries := [];
    }

    /** `CreateHeader` followed by copying the content. */
    method Write(header: ZipEntry, content: Bytes)
      modifies this
      ensures entries == old(entries) + [header.(content := content)]
    {
      entries := entries + [header.(content := content)];
    }
  }

  /** `addFileToZip`: open the source, write a Deflate entry named by its base name. */
  method AddFileToZip(w: ZipWriter, fs: Files, filename: string) returns (err: Option<string>)
    modifies w
    ensures err == None <==> filename in fs
    ensures err.Some? ==> err == Some(OpenError(filename))
    ensures w.entries == old(w.entries) + if filename in fs then [EntryFor(fs, filename)] else []
  {
    if filename !in fs {
      return Some(OpenError(filename));
    }
    var header := ZipEntry(Base(filename), Deflate, []);
    w.Write(header, fs[filename]);
    return None;
  }

  /**
   * `CreateZipFile`. `createErr` is the outcome of creating `zipPath`.
   * `archive` is what the destination holds afterwards (None when it was never
   * created) and `readFrom` lists the sources opened, in order.
   */
  method CreateZipFile(fs: Files, files: seq<string>, zipPath: string, createErr: Option<string>)
    returns (archive: Option<seq<ZipEntry>>, readFrom: seq<string>, err: Option<string>)
    ensures createErr.Some? ==> archive == None && readFrom == [] && err == createErr
    ensures createErr.None? ==>
      var k := ReadablePrefix(fs, files);
      && archive == Some(Entries(fs, files[..k]))
      && readFrom == files[..if k < |files| then k + 1 else k]
      && (err == None <==> k == |files|)
      && (k < |files| ==> err == Some(OpenError(files[k])))
  {
    if createErr.Some? {
      return None, [], createErr;
    }
    var w := new ZipWriter();
    readFrom := [];
    ghost var k := ReadablePrefix(fs, files);
    for i := 0 to |files|
      invariant i <= k
      invariant w.entries == Entries(fs, files[..i])
      invariant readFrom == files[..i]
    {
      readFrom := readFrom + [files[i]];
      assert files[..i + 1] == files[..i] + [files[i]];
      ghost var before := w.entries;
      err := AddFileToZip(w, fs, files[i]);
      if err.Some? {
        assert w.entries == before + [] == before;
        assert i == k by {
          assert files[i] !in fs;
        }
        assert readFrom == files[..k + 1];
        return Some(w.entries), readFrom, err;
      }
      assert Entries(fs, files[..i + 1]) == Entries(fs, files[..i]) + [EntryFor(fs, files[i])];
    }
    assert k == |files|;
    return Some(w.entries), readFrom, None;
  }

  /** The archive is flat and every entry is deflated: no name carries a
      directory, unless its source path was made only of slashes. Sources
      sharing a base name are not merged: there is one entry per source. */
  lemma EntriesFlat(fs: Files, paths: seq<string>)
    requires forall j :: 0 <= j < |paths| ==> paths[j] in fs
    ensures |Entries(fs, paths)| == |paths|
    ensures forall e :: e in Entries(fs, paths) ==> e.compression == Deflate && ('/' !in e.name || e.name == "/")
  {
  }

  /** The content stored under `name`: the first entry with that name. */
  function Lookup(entries: seq<ZipEntry>, name: string): Option<Bytes> {
    if entries == [] then None
    else if entries[0].name == name then Some(entries[0].content)
    else Lookup(entries[1..], name)
  }

  /**
   * Round trip: when the sources have distinct base names, each one is
   * retrievable from the archive under its base name with its own bytes.
   */
  lemma {:induction false} ArchiveRoundTrip(fs: Files, paths: seq<string>, i: nat)
    requires forall j :: 0 <= j < |paths| ==> paths[j] in fs
    requires forall j, l :: 0 <= j < l < |paths| ==> Base(paths[j]) != Base(paths[l])
    requires i < |paths|
    ensures Lookup(Entries(fs, paths), Base(paths[i])) == Some(fs[paths[i]])
  {
    var es := Entries(fs, paths);
    LookupFinds(es, Base(paths[i]), i);
  }

  lemma {:induction false} LookupFinds(es: seq<ZipEntry>, name: string, i: nat)
    requires i < |es| && es[i].name == name
    requires forall j :: 0 <= j < i ==> es[j].name != name
    ensures Lookup(es, name) == Some(es[i].content)
  {
    if i > 0 {
      LookupFinds(es[1..], name, i - 1);
    }
  }
}
