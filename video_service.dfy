/**
 * The HTTP upload path's video service (internal/domain/services/video_service.go):
 * `ProcessVideo` maps the extractor's and the archiver's outcomes to a
 * `ProcessingResult`, and `ValidateVideoFile` checks a file name's extension.
 */
module VideoService {
  import opened Wrappers
  import opened FilePath
  import opened Collaborators
  import Storage

  /** An uploaded video (`entities.VideoFile`); the creation time is an abstract instant. */
  datatype VideoFile = VideoFile(
    id: string,
    filename: string,
    originalName: string,
    path: string,
    size: int,
    createdAt: int)

  /** `entities.ProcessingResult`. */
  datatype ProcessingResult = ProcessingResult(
    success: bool,
    message: string,
    zipPath: string,
    frameCount: nat,
    images: seq<string>,
    videoId: string)

  /** A failed result: only the message is set. */
  function FailedResult(message: string): ProcessingResult {
    ProcessingResult(false, message, "", 0, [], "")
  }

  const NoFramesMessage := "Nenhum frame foi extraído do vídeo"
  const NoFramesError := "nenhum frame extraído"

  function DigitChar(d: nat): (c: char)
    requires d < 10
    ensures '0' <= c <= '9' && c as int - '0' as int == d
  {
    ('0' as int + d) as char
  }

  /** The number a string of decimal digits denotes. */
  function DigitsValue(s: string): nat
    requires forall i :: 0 <= i < |s| ==> '0' <= s[i] <= '9'
  {
    if s == [] then 0 else DigitsValue(s[..|s| - 1]) * 10 + (s[|s| - 1] as int - '0' as int)
  }

  /** The decimal form `%d` prints: the digits of `n`, with no leading zero. */
  function NatToString(n: nat): (r: string)
    ensures r != []
    ensures forall i :: 0 <= i < |r| ==> '0' <= r[i] <= '9'
    ensures DigitsValue(r) == n
    ensures |r| > 1 ==> r[0] != '0'
  {
    if n < 10 then [DigitChar(n)]
    else
      var r := NatToString(n / 10) + [DigitChar(n % 10)];
      assert r[..|r| - 1] == NatToString(n / 10);
      r
  }

  function SuccessMessage(frameCount: nat): string {
    "Processamento concluído! " + NatToString(frameCount) + " frames extraídos."
  }

  /** The temporary extraction directory of a video. */
  function TempDir(video: VideoFile): string {
    Join("temp", video.id)
  }

  /** The archive's file name, which is also what the result reports. */
  function ZipFilename(video: VideoFile): string {
    "frames_" + video.id + ".zip"
  }

  function ZipDestination(video: VideoFile): string {
    Join("outputs", ZipFilename(video))
  }

  /**
   * `ProcessVideo`. The filesystem `fs` (the set of existing paths) and the
   * collaborators' outcomes are inputs; `fsAfter` is the filesystem when it
   * returns and `calls` the collaborator calls it made.
   */
  method ProcessVideo(fs: set<string>, video: VideoFile, extract: ExtractResult, zip: ZipResult)
    returns (fsAfter: set<string>, calls: seq<Call>, result: ProcessingResult, err: Option<string>)
    // Success and a nil error go together; success always reports frames and an archive.
    ensures result.success <==> err.None?
    ensures result.success ==> result.frameCount > 0 && result.zipPath != ""
    // The extractor writes into the temporary directory; an extraction error stops there.
    ensures |calls| >= 1
    ensures calls[0] == ExtractFrames(video.path, TempDir(video))
    ensures extract.ExtractFailed? ==>
      && calls == [ExtractFrames(video.path, TempDir(video))]
      && result == FailedResult("Erro na extração de frames: " + extract.err)
      && err == Some(extract.err)
    ensures extract == Extracted([]) ==>
      && calls == [ExtractFrames(video.path, TempDir(video))]
      && result == FailedResult(NoFramesMessage)
      && err == Some(NoFramesError)
    // The archiver receives the frames unchanged at outputs/frames_{ID}.zip.
    ensures extract.Extracted? && extract.frames != [] ==>
      calls == [ExtractFrames(video.path, TempDir(video)), CreateZip(extract.frames, ZipDestination(video))]
    ensures extract.Extracted? && extract.frames != [] && !zip.Zipped? ==>
      && result == FailedResult("Erro ao criar arquivo ZIP: " + zip.err)
      && err == Some(zip.err)
    ensures extract.Extracted? && extract.frames != [] && zip.Zipped? ==>
      && result.success
      && result.message == SuccessMessage(|extract.frames|)
      && result.frameCount == |extract.frames|
      && |result.images| == |extract.frames|
      && (forall i :: 0 <= i < |extract.frames| ==> result.images[i] == Base(extract.frames[i]))
      && result.zipPath == ZipFilename(video)
      && result.videoId == video.id
    // The temporary directory and everything in it are gone on every exit;
    // nothing else that existed is removed.
    ensures forall p :: p in fsAfter ==> !Under(p, TempDir(video))
    ensures forall p :: p in fs && !Under(p, TempDir(video)) ==> p in fsAfter
    ensures extract.Extracted? && extract.frames != [] && !zip.ZipCreateFailed? && !Under(ZipDestination(video), TempDir(video))
      ==> ZipDestination(video) in fsAfter
  {
    var tempDir := Join("temp", video.id);
    fsAfter := fs + MkdirAll(tempDir);
    var deferred := Deferred(RemoveAll(tempDir), Empty);

    // Each branch below ends in a return; the deferred removal runs after it.
    calls := [ExtractFrames(video.path, tempDir)];
    if extract.ExtractFailed? {
      result, err := FailedResult("Erro na extração de frames: " + extract.err), Some(extract.err);
    } else if |extract.frames| == 0 {
      result, err := FailedResult(NoFramesMessage), Some(NoFramesError);
    } else {
      var frames := extract.frames;
      fsAfter := fsAfter + Written(frames);
      var zipFilename := "frames_" + video.id + ".zip";
      var zipPath := Join("outputs", zipFilename);
      calls := calls + [CreateZip(frames, zipPath)];
      if !zip.ZipCreateFailed? {
        fsAfter := fsAfter + {zipPath};
      }
      if !zip.Zipped? {
        result, err := FailedResult("Erro ao criar arquivo ZIP: " + zip.err), Some(zip.err);
      } else {
        var imageNames := CollectNames(frames, Base);
        result := ProcessingResult(true, SuccessMessage(|frames|), zipFilename, |frames|, imageNames, video.id);
        err := None;
      }
    }
    ghost var made := fsAfter;
    fsAfter := Swept(fsAfter, deferred);
    SweptTree(made, tempDir);
  }

  /** The loop of `ProcessVideo` filling a slice of the frames' length with a
      name for each frame, in order; `ProcessVideo` passes `Base`. */
  method CollectNames(frames: seq<string>, name: string -> string) returns (names: seq<string>)
    ensures |names| == |frames|
    ensures forall i :: 0 <= i < |frames| ==> names[i] == name(frames[i])
  {
    var buffer := new string[|frames|];
    for i := 0 to |frames|
      invariant forall j :: 0 <= j < i ==> buffer[j] == name(frames[j])
    {
      buffer[i] := name(frames[i]);
    }
    names := buffer[..];
  }

  /** A deferred `os.RemoveAll(d)` leaves exactly what lies outside `d`. */
  lemma SweptTree(fs: set<string>, d: string)
    ensures forall p :: p in Swept(fs, Deferred(RemoveAll(d), Empty)) <==> p in fs && !Under(p, d)
  {
    forall p
      ensures p in Swept(fs, Deferred(RemoveAll(d), Empty)) <==> p in fs && !Under(p, d)
    {
      SweptRemoves(fs, Deferred(RemoveAll(d), Empty), p);
    }
  }

  /** `ValidateVideoFile`: the lower-cased extension compared with each accepted one. */
  method ValidateVideoFile(filename: string) returns (ok: bool)
    ensures ok == Storage.IsVideoFile(filename)
  {
    var ext := Lower(Ext(filename));
    var validExts := [".mp4", ".avi", ".mov", ".mkv", ".wmv", ".flv", ".webm"];
    assert validExts == Storage.VideoExtensions;
    for i := 0 to |validExts|
      invariant ext !in validExts[..i]
    {
      if ext == validExts[i] {
        return true;
      }
      assert validExts[..i + 1] == validExts[..i] + [validExts[i]];
    }
    assert validExts[..|validExts|] == validExts;
    return false;
  }

  /** The archive name reported on success never lies in the temporary directory:
      it is a bare file name, found in `outputs`, and the temporary tree is gone. */
  lemma {:induction false} ZipOutsideTempDir(video: VideoFile)
    requires '/' !in video.id && video.id != "" && video.id != "." && video.id != ".."
    ensures ZipDestination(video) == "outputs/" + ZipFilename(video)
    ensures !Under(ZipDestination(video), TempDir(video))
  {
    var z := ZipFilename(video);
    assert '/' !in z by {
      assert z == "frames_" + video.id + ".zip";
      assert forall i :: 0 <= i < |z| ==> z[i] != '/' by {
        forall i | 0 <= i < |z|
          ensures z[i] != '/'
        {
          if i < 7 {
            assert z[i] == "frames_"[i];
          } else if i < 7 + |video.id| {
            assert z[i] == video.id[i - 7];
          } else {
            assert z[i] == ".zip"[i - 7 - |video.id|];
          }
        }
      }
    }
    assert z[0] == 'f';
    JoinPlain("outputs", z);
    JoinPlain("temp", video.id);
    var d := ZipDestination(video);
    assert d[0] == 'o';
    assert TempDir(video)[0] == 't';
  }
}
