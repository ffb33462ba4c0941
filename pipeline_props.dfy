/**
 * What one worker run and one polling cycle of cmd/server/main.go guarantee,
 * stated over the functions the `Worker` methods are proved against: the
 * run's error and notification, the order of the stages, the files left
 * behind, where the worker's paths lie, and how a batch claims its messages.
 */
module PipelineProps {
  import opened Wrappers
  import opened FilePath
  import opened Collaborators
  import opened Queue
  import opened Notification
  import opened Pipeline

  // ---------------------------------------------------------------------
  // Error and notification of one run

  /**
   * `processVideoMessage` fails with the failing stage's own error, and
   * returns nil both when no frame was extracted and when everything succeeded.
   */
  lemma RunErrorCases(s: Stages)
    ensures RunError(s).None? <==>
      s.download.Downloaded? && s.extract.Extracted? && (s.extract.frames == [] || (s.zip.Zipped? && s.upload.Uploaded?))
    ensures !s.download.Downloaded? ==> RunError(s) == Some(s.download.err)
    ensures s.download.Downloaded? && s.extract.ExtractFailed? ==> RunError(s) == Some(s.extract.err)
    ensures s.download.Downloaded? && s.extract.Extracted? && s.extract.frames != [] && !s.zip.Zipped? ==>
      RunError(s) == Some(s.zip.err)
    ensures s.download.Downloaded? && s.extract.Extracted? && s.extract.frames != [] && s.zip.Zipped? && s.upload.UploadFailed? ==>
      RunError(s) == Some(s.upload.err)
  {
  }

  /**
   * The one notification of a run is PROCESSED exactly when all four stages
   * succeeded, and FAILED, with the failing stage's message, otherwise; the
   * PROCESSED one points at the uploaded archive, and both go to the
   * message's address or the default one.
   */
  lemma NotificationOfRun(msg: VideoMessage, key: string, s: Stages, defaultEmail: string, n: NoticeOracle)
    ensures var ev := EventFor(msg, key, ExitOf(s), defaultEmail, n);
      && (ev.eventType == VideoProcessed <==>
            s.download.Downloaded? && s.extract.Extracted? && s.extract.frames != [] && s.zip.Zipped? && s.upload.Uploaded?)
      && (ev.eventType == VideoProcessed ==> ev.data.videoUrl == ArchiveLocation(key) && ev.data.errorMessage == "")
      && (ev.eventType != VideoProcessed ==>
            ev.eventType == VideoFailed && ev.data.videoUrl == ""
            && ev.data.errorMessage == FailureMessage(ExitOf(s)) && ev.data.errorMessage != "")
      && ev.user.email == GetUserEmail(msg, defaultEmail)
      && ev.user.id == ev.data.videoId == msg.idVideo
      && ev.user.name == msg.autor && ev.data.videoTitle == msg.titulo
      && ev.eventId == n.eventId && ev.timestamp == n.timestamp
  {
    assert VideoProcessed[6] != VideoFailed[6];
  }

  /** The stage failing at each exit, word for word. */
  lemma FailureMessages(e: Exit)
    ensures e.DownloadFailedExit? ==> FailureMessage(e) == "Erro ao baixar vídeo do S3: " + e.err
    ensures e.ExtractFailedExit? ==> FailureMessage(e) == "Erro ao extrair frames: " + e.err
    ensures e.NoFramesExit? ==> FailureMessage(e) == "Nenhum frame foi extraído do vídeo"
    ensures e.ZipFailedExit? ==> FailureMessage(e) == "Erro ao criar arquivo ZIP: " + e.err
    ensures e.UploadFailedExit? ==> FailureMessage(e) == "Erro ao fazer upload do ZIP: " + e.err
    ensures !e.CompletedExit? ==> FailureMessage(e) != ""
  {
  }

  // ---------------------------------------------------------------------
  // Stage order

  /**
   * The stages run in pipeline order and stop at the first failure (or at the
   * empty frame list): the calls made are the first ones of the plan, and a
   * stage is reached exactly when every stage before it succeeded.
   */
  lemma StagesShortCircuit(l: Layout, msg: VideoMessage, s: Stages)
    ensures 1 <= |StageCalls(l, msg, s)| <= 4
    ensures StageCalls(l, msg, s) == Plan(l, msg, s)[..|StageCalls(l, msg, s)|]
    ensures |StageCalls(l, msg, s)| >= 2 <==> s.download.Downloaded?
    ensures |StageCalls(l, msg, s)| >= 3 <==> s.download.Downloaded? && s.extract.Extracted? && s.extract.frames != []
    ensures |StageCalls(l, msg, s)| == 4 <==>
      s.download.Downloaded? && s.extract.Extracted? && s.extract.frames != [] && s.zip.Zipped?
  {
  }

  /** The first n planned calls, as the concatenation `StageCalls` builds when it stops after stage n. */
  lemma PlanPrefix(l: Layout, msg: VideoMessage, s: Stages, n: nat)
    requires 1 <= n <= 4
    ensures var p := Plan(l, msg, s);
      Plan(l, msg, s)[..n] ==
        if n == 1 then [p[0]] else if n == 2 then [p[0]] + [p[1]] else if n == 3 then [p[0]] + [p[1]] + [p[2]]
        else [p[0]] + [p[1]] + [p[2]] + [p[3]]
  {
    var p := Plan(l, msg, s);
    Prefixes(p[0], p[1], p[2], p[3]);
    assert p == [p[0], p[1], p[2], p[3]];
  }

  /** Proof helper, not a property of the worker: the prefixes of a four-element
      sequence, written as the concatenations a run builds. */
  lemma Prefixes<T>(a: T, b: T, c: T, d: T)
    ensures [a, b, c, d][..1] == [a]
    ensures [a, b, c, d][..2] == [a] + [b]
    ensures [a, b, c, d][..3] == [a] + [b] + [c]
    ensures [a, b, c, d][..4] == [a] + [b] + [c] + [d]
  {
  }

  // ---------------------------------------------------------------------
  // Files left behind by one run

  /**
   * Once the download succeeded, the video and everything under the frames
   * directory are gone when the run returns, whatever happens next; the
   * archive is gone once it was created, whether the upload then succeeded or
   * failed; and every other path keeps its presence.
   */
  lemma CleanupAfterRun(fs: set<string>, l: Layout, s: Stages, p: string)
    ensures s.download.Downloaded? ==> l.video !in FinalFs(fs, l, s)
    ensures s.download.Downloaded? && Under(p, l.frames) ==> p !in FinalFs(fs, l, s)
    ensures ExitOf(s).UploadFailedExit? || ExitOf(s).CompletedExit? ==> l.zip !in FinalFs(fs, l, s)
    ensures p in fs && p != l.video && !Under(p, l.frames) && p != l.zip ==>
      p in FinalFs(fs, l, s)
  {
    var made, d := Produced(fs, l, s), Registered(l, s);
    assert fs <= made;
    RegisteredRemoves(l, s, l.video);
    RegisteredRemoves(l, s, l.zip);
    RegisteredRemoves(l, s, p);
    SweptRemoves(made, d, l.video);
    SweptRemoves(made, d, l.zip);
    SweptRemoves(made, d, p);
  }

  /**
   * What the registered removals cover: nothing before a successful download;
   * then the video and the frames directory's tree, and the archive once it
   * was created.
   */
  lemma RegisteredRemoves(l: Layout, s: Stages, p: string)
    ensures RemovedBy(Registered(l, s), p) <==>
      s.download.Downloaded? &&
      (p == l.video || Under(p, l.frames) ||
       (s.extract.Extracted? && s.extract.frames != [] && s.zip.Zipped? && p == l.zip))
  {
    if s.download.Downloaded? {
      var v := Deferred(Remove(l.video), Empty);
      var d := Deferred(RemoveAll(l.frames), v);
      assert RemovedBy(v, p) <==> p == l.video;
      assert RemovedBy(d, p) <==> Under(p, l.frames) || RemovedBy(v, p);
      if s.extract.Extracted? && s.extract.frames != [] && s.zip.Zipped? {
        assert RemovedBy(Deferred(Remove(l.zip), d), p) <==> p == l.zip || RemovedBy(d, p);
      }
    }
  }

  /** A download that created the file and then failed leaves it behind: its removal was never registered. */
  lemma FailedDownloadLeaks(fs: set<string>, l: Layout, s: Stages)
    requires s.download.TransferFailed?
    ensures l.video in FinalFs(fs, l, s)
  {
    assert Registered(l, s) == Empty;
  }

  /**
   * An archive that was created and then failed while adding an entry is left
   * behind: its removal is registered only after a successful creation, and
   * the other removals do not reach it.
   */
  lemma ZipLeftBehind(fs: set<string>, l: Layout, s: Stages)
    requires s.download.Downloaded? && s.extract.Extracted? && s.extract.frames != [] && s.zip.ZipEntryFailed?
    requires l.zip != l.video && !Under(l.zip, l.frames)
    ensures l.zip in FinalFs(fs, l, s)
  {
    RegisteredRemoves(l, s, l.zip);
    assert l.zip in Produced(fs, l, s);
    SweptRemoves(Produced(fs, l, s), Registered(l, s), l.zip);
  }

  /**
   * For the worker's own layout, the archive of a failed archiving stage is
   * left behind in the worker's output directory.
   */
  lemma FailedZipLeaks(fs: set<string>, id: string, msg: VideoMessage, s: Stages)
    requires s.download.Downloaded? && s.extract.Extracted? && s.extract.frames != [] && s.zip.ZipEntryFailed?
    requires '/' !in id && Base(msg.videoKey) != ".." && ".." !in Split(msg.videoId)
    ensures LocalZipPath(id, msg) in FinalFs(fs, LayoutFor(id, msg), s)
  {
    var z, v, f := LocalZipPath(id, msg), LocalVideoPath(id, msg), FramesDir(id, msg);
    WorkerDirs(id);
    PathsScoped(id, msg);
    UnderHead(z, WorkerOutputDir(id));
    UnderHead(v, WorkerTempDir(id));
    UnderHead(f, WorkerTempDir(id));
    UnderHead(z, f);
    assert z[0] == 'o' && v[0] == 't' && f[0] == 't';
    ZipLeftBehind(fs, LayoutFor(id, msg), s);
  }

  /**
   * Creating the frames directory also creates its missing ancestors, but only
   * the frames directory's own tree is removed: an ancestor that is neither
   * the video nor the archive is still there when the run returns.
   */
  lemma FramesAncestorsLeak(fs: set<string>, l: Layout, s: Stages, q: string)
    requires s.download.Downloaded?
    requires q in MkdirAll(l.frames) && q != l.frames && q != l.video && q != l.zip
    ensures q in FinalFs(fs, l, s)
  {
    MkdirAllSpec(l.frames, q);
    assert q in Produced(fs, l, s);
    RegisteredRemoves(l, s, q);
    SweptRemoves(Produced(fs, l, s), Registered(l, s), q);
  }

  /**
   * A receipt handle "a/b" puts the frames in "temp/worker-{id}/frames_a/b".
   * Once the download succeeded, the intermediate directory
   * "temp/worker-{id}/frames_a" is created and never removed (unless the
   * video itself has that name).
   */
  lemma SlashedHandleLeaks(fs: set<string>, id: string, msg: VideoMessage, s: Stages, a: string, b: string)
    requires '/' !in id && Plain(a) && Plain(b) && msg.videoId == a + "/" + b
    requires s.download.Downloaded? && Base(msg.videoKey) != "frames_" + a
    ensures FramesDir(id, msg) == "temp/worker-" + id + "/frames_" + a + "/" + b
    ensures "temp/worker-" + id + "/frames_" + a in FinalFs(fs, LayoutFor(id, msg), s)
  {
    var t, f := "temp/worker-" + id, "frames_" + a;
    var q := "temp/worker-" + id + "/frames_" + a;
    assert q == t + "/" + f;
    SlashedFramesDir(id, msg, a, b);
    var d := FramesDir(id, msg);
    assert d == q + "/" + b && |d| > |q|;
    assert HasPrefix(d, q + "/") by { assert d[..|q + "/"|] == q + "/"; }
    MkdirAllSpec(d, q);
    VideoNotSibling(id, msg, f);
    ArchiveScoped(id, msg);
    WorkerDirs(id);
    UnderHead(LocalZipPath(id, msg), WorkerOutputDir(id));
    assert LocalZipPath(id, msg)[0] == 'o' && q[0] == 't';
    FramesAncestorsLeak(fs, LayoutFor(id, msg), s, q);
  }

  /** The frames directory of a receipt handle "a/b" made of two plain elements. */
  lemma SlashedFramesDir(id: string, msg: VideoMessage, a: string, b: string)
    requires '/' !in id && Plain(a) && Plain(b) && msg.videoId == a + "/" + b
    ensures FramesDir(id, msg) == "temp/worker-" + id + "/" + ("frames_" + a) + "/" + b
  {
    var t, f := "temp/worker-" + id, "frames_" + a;
    WorkerDirs(id);
    WorkerName(id);
    assert Plain(f) by {
      assert f[0] == 'f' && forall i :: 0 <= i < |f| ==> f[i] != '/';
    }
    assert "frames_" + msg.videoId == f + "/" + b;
    TwoPlainElements(f, b);
    JoinBelowChild("temp", "worker-" + id, f + "/" + b);
    assert FramesDir(id, msg) == t + "/" + (f + "/" + b);
    Reassociate(t + "/", f, "/" + b);
    Reassociate(t + "/" + f, "/", b);
  }

  /** Two plain elements joined by '/' split back into themselves, all kept. */
  lemma TwoPlainElements(f: string, b: string)
    requires Plain(f) && Plain(b)
    ensures Split(f + "/" + b) == [f, b]
    ensures Kept(Split(f + "/" + b)) == [f, b] && JoinElems([f, b]) == f + "/" + b
  {
    SplitConcat(f, b);
    SplitNoSlash(f);
    SplitNoSlash(b);
    assert Kept([f, b]) == [f] + Kept([b]) && Kept([b]) == [b] + Kept([]);
    assert JoinElems([f, b]) == f + "/" + JoinElems([b]);
  }

  /** The downloaded video is not the worker's temp directory's child `f` unless the key's base name is `f`. */
  lemma VideoNotSibling(id: string, msg: VideoMessage, f: string)
    requires '/' !in id && f != "" && Base(msg.videoKey) != f
    ensures LocalVideoPath(id, msg) != "temp/worker-" + id + "/" + f
  {
    var t, base := "temp/worker-" + id, Base(msg.videoKey);
    var v, q := LocalVideoPath(id, msg), t + "/" + f;
    if base == ".." {
      DotDotKey(id, msg);
      assert |q| > |"temp"|;
    } else {
      VideoPath(id, msg);
      if base == "." || base == "/" {
        assert |q| > |t|;
      } else {
        assert v[|t| + 1..] == base && q[|t| + 1..] == f;
      }
    }
  }

  /** With a key whose base name is not "..", the video is the worker's temp
      directory itself (base name "." or "/") or its child named by the base name. */
  lemma VideoPath(id: string, msg: VideoMessage)
    requires '/' !in id && Base(msg.videoKey) != ".."
    ensures var t, base := "temp/worker-" + id, Base(msg.videoKey);
      LocalVideoPath(id, msg) == if base == "." || base == "/" then t else t + "/" + base
  {
    WorkerDirs(id);
    WorkerName(id);
    JoinChildBase("temp", "worker-" + id, Base(msg.videoKey));
  }

  // ---------------------------------------------------------------------
  // Where the worker's paths lie

  /** A path below a non-empty directory starts with the directory's first character. */
  lemma UnderHead(p: string, dir: string)
    requires dir != ""
    ensures Under(p, dir) ==> p != "" && p[0] == dir[0]
  {
    if Under(p, dir) && p != dir {
      assert p[..|dir + "/"|] == dir + "/";
      assert p[0] == (dir + "/")[0];
    }
  }

  /** The worker's directories are "temp/worker-{id}" and "outputs/worker-{id}". */
  lemma WorkerDirs(id: string)
    requires '/' !in id
    ensures WorkerTempDir(id) == "temp/worker-" + id
    ensures WorkerOutputDir(id) == "outputs/worker-" + id
  {
    WorkerName(id);
    JoinPlain("temp", "worker-" + id);
    JoinPlain("outputs", "worker-" + id);
  }

  /**
   * With a worker id free of '/', a key whose base name is not "..", and a
   * receipt handle with no ".." element, the video and the frames directory
   * lie in the worker's temp directory and the archive in its output
   * directory.
   */
  lemma PathsScoped(id: string, msg: VideoMessage)
    requires '/' !in id && Base(msg.videoKey) != ".." && ".." !in Split(msg.videoId)
    ensures Under(LocalVideoPath(id, msg), WorkerTempDir(id))
    ensures Under(FramesDir(id, msg), WorkerTempDir(id)) && FramesDir(id, msg) != WorkerTempDir(id)
    ensures Under(LocalZipPath(id, msg), WorkerOutputDir(id)) && LocalZipPath(id, msg) != WorkerOutputDir(id)
  {
    VideoScoped(id, msg);
    FramesScoped(id, msg);
    ArchiveScoped(id, msg);
  }

  lemma VideoScoped(id: string, msg: VideoMessage)
    requires '/' !in id && Base(msg.videoKey) != ".."
    ensures Under(LocalVideoPath(id, msg), WorkerTempDir(id))
  {
    WorkerName(id);
    NoDotDotInBase(Base(msg.videoKey));
    JoinBelowChild("temp", "worker-" + id, Base(msg.videoKey));
  }

  lemma FramesScoped(id: string, msg: VideoMessage)
    requires '/' !in id && ".." !in Split(msg.videoId)
    ensures Under(FramesDir(id, msg), WorkerTempDir(id)) && FramesDir(id, msg) != WorkerTempDir(id)
  {
    WorkerName(id);
    var prefix := "frames_";
    assert '/' !in prefix;
    var f := prefix + msg.videoId;
    SplitPrefix(prefix, msg.videoId);
    var h := Split(msg.videoId);
    var first := prefix + h[0];
    assert Split(f) == [first] + h[1..];
    assert |first| >= 7;
    assert forall e | e in h[1..] :: e in h;
    assert ".." !in Split(f);
    assert Kept(Split(f)) == [first] + Kept(h[1..]);
    JoinBelowChild("temp", "worker-" + id, f);
  }

  lemma ArchiveScoped(id: string, msg: VideoMessage)
    requires '/' !in id
    ensures Under(LocalZipPath(id, msg), WorkerOutputDir(id)) && LocalZipPath(id, msg) != WorkerOutputDir(id)
  {
    WorkerName(id);
    ZipNameElements(msg.videoKey);
    JoinBelowChild("outputs", "worker-" + id, ZipName(msg.videoKey));
  }

  /** The worker's directory name is a plain path element. */
  lemma WorkerName(id: string)
    requires '/' !in id
    ensures Plain("worker-" + id) && Plain("temp") && Plain("outputs")
  {
    var w := "worker-" + id;
    assert w[0] == 'w' && forall i :: 0 <= i < |w| ==> w[i] != '/';
  }

  /** A base name other than ".." has no ".." element. */
  lemma NoDotDotInBase(b: string)
    requires b != "" && (b == "/" || '/' !in b) && b != ".."
    ensures ".." !in Split(b)
  {
    if b == "/" {
      assert Split(b) == [""] + Split("");
    } else {
      SplitNoSlash(b);
    }
  }

  /** The archive name has no ".." element and keeps at least one element under `Clean`. */
  lemma ZipNameElements(key: string)
    ensures ".." !in Split(ZipName(key))
    ensures Kept(Split(ZipName(key))) != []
  {
    var suffix := "_frames.zip";
    assert '/' !in suffix;
    StemSuffixElements(Base(key), suffix);
  }

  /** A base name without its extension, followed by a longer slash-free suffix, keeps one plain element. */
  lemma StemSuffixElements(b: string, suffix: string)
    requires b == "/" || '/' !in b
    requires '/' !in suffix && |suffix| >= 3
    ensures var z := b[..|b| - |Ext(b)|] + suffix; ".." !in Split(z) && Kept(Split(z)) != []
  {
    var stem := b[..|b| - |Ext(b)|];
    StemOfBase(b);
    SuffixedElements(stem, suffix);
  }

  /** What is left of a base name without its extension is "/" or free of '/'. */
  lemma StemOfBase(b: string)
    requires b == "/" || '/' !in b
    ensures var stem := b[..|b| - |Ext(b)|]; stem == "/" || '/' !in stem
  {
    var stem := b[..|b| - |Ext(b)|];
    if b == "/" {
      assert Ext(b) == "";
    } else {
      assert forall i :: 0 <= i < |stem| ==> stem[i] == b[i];
    }
  }

  /** A stem that is "/" or free of '/', followed by a longer slash-free suffix, keeps one plain element. */
  lemma SuffixedElements(stem: string, suffix: string)
    requires stem == "/" || '/' !in stem
    requires '/' !in suffix && |suffix| >= 3
    ensures ".." !in Split(stem + suffix)
    ensures Kept(Split(stem + suffix)) != []
  {
    var z := stem + suffix;
    SplitNoSlash(suffix);
    if stem == "/" {
      assert z[0] == '/' && z[1..] == suffix;
      assert Split(z) == [""] + [suffix];
      assert Kept(Split(z)) == [] + Kept([suffix]);
      assert Kept([suffix]) == [suffix] + Kept([]);
    } else {
      assert forall i :: 0 <= i < |z| ==> z[i] == (if i < |stem| then stem[i] else suffix[i - |stem|]);
      SplitNoSlash(z);
      assert Kept([z]) == [z] + Kept([]);
    }
  }

  /** A key whose base name is ".." puts the downloaded video at "temp" itself, outside the worker's directory. */
  lemma DotDotKey(id: string, msg: VideoMessage)
    requires '/' !in id && Base(msg.videoKey) == ".."
    ensures LocalVideoPath(id, msg) == "temp"
  {
    WorkerName(id);
    JoinParent("temp", "worker-" + id);
  }

  /** Workers with different ids (free of '/') never share a temp or output path. */
  lemma WorkersDisjoint(a: string, b: string, p: string)
    requires '/' !in a && '/' !in b && a != b
    ensures !(Under(p, WorkerTempDir(a)) && Under(p, WorkerTempDir(b)))
    ensures !(Under(p, WorkerOutputDir(a)) && Under(p, WorkerOutputDir(b)))
  {
    WorkerName(a);
    WorkerName(b);
    var wa, wb := "worker-" + a, "worker-" + b;
    assert wa[7..] == a && wb[7..] == b;
    ChildrenDisjoint("temp", wa, wb, p);
    ChildrenDisjoint("outputs", wa, wb, p);
  }

  /**
   * The archive of "dir/stem.ext" is "stem_frames.zip", uploaded under
   * "processed/" and announced in the default bucket.
   */
  lemma ZipNaming(msg: VideoMessage, dir: string, stem: string, ext: string)
    requires stem != "" && '/' !in stem && '.' !in ext && '/' !in ext
    requires msg.videoKey == dir + "/" + stem + "." + ext
    ensures ZipName(msg.videoKey) == stem + "_frames.zip"
    ensures UploadKey(msg) == "processed/" + stem + "_frames.zip"
    ensures ArchiveLocation(UploadKey(msg)) == "s3://video-service-bucket/" + "processed/" + stem + "_frames.zip"
  {
    ZipNameOfChild(dir, stem, ext);
    var bucket, processed, suffix := "s3://video-service-bucket/", "processed/", "_frames.zip";
    Reassociate(processed, stem, suffix);
    Reassociate(bucket, processed, stem + suffix);
    Reassociate(bucket + processed, stem, suffix);
  }

  /** The archive of "dir/stem.ext" is named "stem_frames.zip". */
  lemma ZipNameOfChild(dir: string, stem: string, ext: string)
    requires stem != "" && '/' !in stem && '.' !in ext && '/' !in ext
    ensures ZipName(dir + "/" + stem + "." + ext) == stem + "_frames.zip"
  {
    var name := stem + "." + ext;
    assert '/' !in "." && '/' !in name;
    assert dir + "/" + stem + "." + ext == dir + "/" + name;
    BaseOfChild(dir, name);
    ExtOfDotSuffix(stem, ext);
    assert name[..|name| - |"." + ext|] == stem;
  }

  // ---------------------------------------------------------------------
  // A polling cycle

  /** The receipt handles deleted by a call log, in order. */
  function Deletes(cs: seq<Call>): seq<string> {
    if cs == [] then []
    else (if cs[0].DeleteMessage? then [cs[0].receiptHandle] else []) + Deletes(cs[1..])
  }

  /** The keys downloaded by a call log, in order. */
  function Downloads(cs: seq<Call>): seq<string> {
    if cs == [] then []
    else (if cs[0].Download? then [cs[0].key] else []) + Downloads(cs[1..])
  }

  lemma {:induction false} DeletesAppend(a: seq<Call>, b: seq<Call>)
    ensures Deletes(a + b) == Deletes(a) + Deletes(b)
  {
    if a != [] {
      assert (a + b)[1..] == a[1..] + b;
      DeletesAppend(a[1..], b);
    } else {
      assert a + b == b;
    }
  }

  lemma {:induction false} DownloadsAppend(a: seq<Call>, b: seq<Call>)
    ensures Downloads(a + b) == Downloads(a) + Downloads(b)
  {
    if a != [] {
      assert (a + b)[1..] == a[1..] + b;
      DownloadsAppend(a[1..], b);
    } else {
      assert a + b == b;
    }
  }

  /**
   * A message's calls start with the delete of its receipt handle, hold no
   * other delete, and download its key once exactly when the delete
   * succeeded; it gets a notification only then.
   */
  lemma ClaimBeforeProcessing(l: Layout, msg: VideoMessage, o: ItemOracle, topic: string, defaultEmail: string)
    ensures ItemCalls(l, msg, o)[0] == DeleteMessage(msg.videoId)
    ensures Deletes(ItemCalls(l, msg, o)) == [msg.videoId]
    ensures Downloads(ItemCalls(l, msg, o)) == if o.deleteErr.None? then [msg.videoKey] else []
    ensures |ItemRecords(topic, l, msg, o, defaultEmail)| == if o.deleteErr.None? then 1 else 0
  {
    var del := [DeleteMessage(msg.videoId)];
    assert Deletes(del) == [msg.videoId] + Deletes([]);
    assert Downloads(del) == [] + Downloads([]);
    if o.deleteErr.None? {
      StageProjections(l, msg, o.stages);
      DeletesAppend(del, StageCalls(l, msg, o.stages));
      DownloadsAppend(del, StageCalls(l, msg, o.stages));
    }
  }

  /** The stage calls of a run hold no delete and exactly one download, of the message's key. */
  lemma StageProjections(l: Layout, msg: VideoMessage, s: Stages)
    ensures Deletes(StageCalls(l, msg, s)) == []
    ensures Downloads(StageCalls(l, msg, s)) == [msg.videoKey]
  {
    var p, n := Plan(l, msg, s), StagesRun(ExitOf(s));
    PlanPrefix(l, msg, s, n);
    var c1 := [p[0]];
    assert Deletes(c1) == [] + Deletes([]);
    assert Downloads(c1) == [msg.videoKey] + Downloads([]);
    if n >= 2 {
      AppendQuiet(c1, p[1]);
      if n >= 3 {
        AppendQuiet(c1 + [p[1]], p[2]);
        if n == 4 {
          AppendQuiet(c1 + [p[1]] + [p[2]], p[3]);
        }
      }
    }
  }

  /** Appending a call that neither deletes nor downloads leaves both projections as they were. */
  lemma AppendQuiet(cs: seq<Call>, c: Call)
    requires !c.DeleteMessage? && !c.Download?
    ensures Deletes(cs + [c]) == Deletes(cs) && Downloads(cs + [c]) == Downloads(cs)
  {
    assert Deletes([c]) == [] + Deletes([]);
    assert Downloads([c]) == [] + Downloads([]);
    DeletesAppend(cs, [c]);
    DownloadsAppend(cs, [c]);
  }

  /** The positions, among the first k messages, whose delete succeeded. */
  function Claimed(msgs: seq<VideoMessage>, k: nat, outcomes: nat -> ItemOracle): seq<nat>
    requires k <= |msgs|
  {
    if k == 0 then []
    else Claimed(msgs, k - 1, outcomes) + (if outcomes(k - 1).deleteErr.None? then [k - 1] else [])
  }

  /** The claimed positions are, in increasing order, exactly those whose delete succeeded. */
  lemma {:induction false} ClaimedSpec(msgs: seq<VideoMessage>, k: nat, outcomes: nat -> ItemOracle)
    requires k <= |msgs|
    ensures forall i: nat :: i in Claimed(msgs, k, outcomes) <==> i < k && outcomes(i).deleteErr.None?
    ensures forall j, l :: 0 <= j < l < |Claimed(msgs, k, outcomes)| ==>
      Claimed(msgs, k, outcomes)[j] < Claimed(msgs, k, outcomes)[l]
  {
    if k > 0 {
      ClaimedSpec(msgs, k - 1, outcomes);
      ClaimedBelow(msgs, k - 1, outcomes);
    }
  }

  /** Every claimed position is one of the first k. */
  lemma {:induction false} ClaimedBelow(msgs: seq<VideoMessage>, k: nat, outcomes: nat -> ItemOracle)
    requires k <= |msgs|
    ensures forall j :: 0 <= j < |Claimed(msgs, k, outcomes)| ==> Claimed(msgs, k, outcomes)[j] < k
  {
    if k > 0 {
      ClaimedBelow(msgs, k - 1, outcomes);
      var c0, c := Claimed(msgs, k - 1, outcomes), Claimed(msgs, k, outcomes);
      forall j | 0 <= j < |c|
        ensures c[j] < k
      {
        if j < |c0| {
          assert c[j] == c0[j];
        }
      }
    }
  }

  /**
   * Every message of the batch is deleted, in receive order, whatever
   * happened to the ones before it: a failed item does not stop the batch.
   */
  lemma {:induction false} BatchDeletesEveryMessage(paths: VideoMessage -> Layout, msgs: seq<VideoMessage>, k: nat, outcomes: nat -> ItemOracle)
    requires k <= |msgs|
    ensures |Deletes(BatchCalls(paths, msgs, k, outcomes))| == k
    ensures forall i :: 0 <= i < k ==> Deletes(BatchCalls(paths, msgs, k, outcomes))[i] == msgs[i].videoId
  {
    BatchDeletesAreIds(paths, msgs, k, outcomes);
    IdsSpec(msgs, k);
  }

  /** The receipt handles of the first k messages, in receive order. */
  function Ids(msgs: seq<VideoMessage>, k: nat): seq<string>
    requires k <= |msgs|
  {
    if k == 0 then [] else Ids(msgs, k - 1) + [msgs[k - 1].videoId]
  }

  lemma {:induction false} IdsSpec(msgs: seq<VideoMessage>, k: nat)
    requires k <= |msgs|
    ensures |Ids(msgs, k)| == k
    ensures forall i :: 0 <= i < k ==> Ids(msgs, k)[i] == msgs[i].videoId
  {
    if k > 0 {
      IdsSpec(msgs, k - 1);
    }
  }

  lemma {:induction false} BatchDeletesAreIds(paths: VideoMessage -> Layout, msgs: seq<VideoMessage>, k: nat, outcomes: nat -> ItemOracle)
    requires k <= |msgs|
    ensures Deletes(BatchCalls(paths, msgs, k, outcomes)) == Ids(msgs, k)
  {
    if k > 0 {
      BatchDeletesAreIds(paths, msgs, k - 1, outcomes);
      DeleteStep(paths, msgs, k, outcomes);
    }
  }

  /** One more message of the batch adds exactly its own delete. */
  lemma DeleteStep(paths: VideoMessage -> Layout, msgs: seq<VideoMessage>, k: nat, outcomes: nat -> ItemOracle)
    requires 0 < k <= |msgs|
    ensures Deletes(BatchCalls(paths, msgs, k, outcomes)) == Deletes(BatchCalls(paths, msgs, k - 1, outcomes)) + [msgs[k - 1].videoId]
  {
    ClaimBeforeProcessing(paths(msgs[k - 1]), msgs[k - 1], outcomes(k - 1), "", "");
    DeletesAppend(BatchCalls(paths, msgs, k - 1, outcomes), ItemCalls(paths(msgs[k - 1]), msgs[k - 1], outcomes(k - 1)));
  }

  /**
   * Exactly the claimed messages are processed, in receive order: each has
   * one download of its key and one notification (when a notifier exists).
   */
  lemma {:induction false} BatchProcessesClaimed(paths: VideoMessage -> Layout, msgs: seq<VideoMessage>, k: nat, outcomes: nat -> ItemOracle,
                                                 topic: string, defaultEmail: string)
    requires k <= |msgs|
    ensures var c := Claimed(msgs, k, outcomes);
      && |Downloads(BatchCalls(paths, msgs, k, outcomes))| == |c|
      && (forall j :: 0 <= j < |c| ==> c[j] < k && Downloads(BatchCalls(paths, msgs, k, outcomes))[j] == msgs[c[j]].videoKey)
    ensures var c := Claimed(msgs, k, outcomes);
      && |BatchRecords(topic, paths, msgs, k, outcomes, defaultEmail)| == |c|
      && (forall j :: 0 <= j < |c| ==>
            c[j] < k && BatchRecords(topic, paths, msgs, k, outcomes, defaultEmail)[j]
              == RecordFor(topic, EventFor(msgs[c[j]], paths(msgs[c[j]]).key, ExitOf(outcomes(c[j]).stages), defaultEmail, outcomes(c[j]).notice)))
  {
    BatchDownloadsSpec(paths, msgs, k, outcomes);
    BatchRecordsSpec(topic, paths, msgs, k, outcomes, defaultEmail);
  }

  /**
   * A log that grows, at step i, by `item(i)` exactly when message i was
   * claimed holds at position j the item of the j-th claimed message.
   */
  lemma {:induction false} ClaimedLog<T>(msgs: seq<VideoMessage>, k: nat, outcomes: nat -> ItemOracle,
                                         log: nat -> seq<T>, item: nat -> T)
    requires k <= |msgs|
    requires log(0) == []
    requires forall i :: 0 < i <= k ==>
      log(i) == log(i - 1) + if outcomes(i - 1).deleteErr.None? then [item(i - 1)] else []
    ensures var c := Claimed(msgs, k, outcomes);
      |log(k)| == |c| && forall j :: 0 <= j < |c| ==> c[j] < k && log(k)[j] == item(c[j])
  {
    if k > 0 {
      ClaimedLog(msgs, k - 1, outcomes, log, item);
      var c0, c := Claimed(msgs, k - 1, outcomes), Claimed(msgs, k, outcomes);
      var l0, l := log(k - 1), log(k);
      forall j | 0 <= j < |c|
        ensures c[j] < k && l[j] == item(c[j])
      {
        if j < |c0| {
          assert c[j] == c0[j] && l[j] == l0[j];
        }
      }
    }
  }

  /** The downloads of the first k messages are the keys of the claimed ones, in receive order. */
  lemma BatchDownloadsSpec(paths: VideoMessage -> Layout, msgs: seq<VideoMessage>, k: nat, outcomes: nat -> ItemOracle)
    requires k <= |msgs|
    ensures var c := Claimed(msgs, k, outcomes);
      && |Downloads(BatchCalls(paths, msgs, k, outcomes))| == |c|
      && (forall j :: 0 <= j < |c| ==> c[j] < k && Downloads(BatchCalls(paths, msgs, k, outcomes))[j] == msgs[c[j]].videoKey)
  {
    BatchDownloadsAreClaimedKeys(paths, msgs, k, outcomes);
    ClaimedLog(msgs, k, outcomes, (i: nat) => if i <= |msgs| then ClaimedKeys(msgs, i, outcomes) else [],
               (i: nat) => if i < |msgs| then msgs[i].videoKey else "");
  }

  /** The video keys of the claimed messages among the first k, in receive order. */
  function ClaimedKeys(msgs: seq<VideoMessage>, k: nat, outcomes: nat -> ItemOracle): seq<string>
    requires k <= |msgs|
  {
    if k == 0 then []
    else ClaimedKeys(msgs, k - 1, outcomes) + (if outcomes(k - 1).deleteErr.None? then [msgs[k - 1].videoKey] else [])
  }

  /** The downloads of the first k messages are exactly the claimed keys. */
  lemma {:induction false} BatchDownloadsAreClaimedKeys(paths: VideoMessage -> Layout, msgs: seq<VideoMessage>, k: nat, outcomes: nat -> ItemOracle)
    requires k <= |msgs|
    ensures Downloads(BatchCalls(paths, msgs, k, outcomes)) == ClaimedKeys(msgs, k, outcomes)
  {
    if k > 0 {
      BatchDownloadsAreClaimedKeys(paths, msgs, k - 1, outcomes);
      DownloadStep(paths, msgs, k, outcomes);
    }
  }

  /** The notifications of the first k messages are those of the claimed ones, in receive order. */
  lemma {:induction false} BatchRecordsSpec(topic: string, paths: VideoMessage -> Layout, msgs: seq<VideoMessage>, k: nat,
                                            outcomes: nat -> ItemOracle, defaultEmail: string)
    requires k <= |msgs|
    ensures var c := Claimed(msgs, k, outcomes);
      && |BatchRecords(topic, paths, msgs, k, outcomes, defaultEmail)| == |c|
      && (forall j :: 0 <= j < |c| ==>
            c[j] < k && BatchRecords(topic, paths, msgs, k, outcomes, defaultEmail)[j] == Notice(topic, paths, msgs, c[j], outcomes, defaultEmail))
  {
    if k > 0 {
      BatchRecordsSpec(topic, paths, msgs, k - 1, outcomes, defaultEmail);
      RecordStep(topic, paths, msgs, k, outcomes, defaultEmail);
      var c0, c := Claimed(msgs, k - 1, outcomes), Claimed(msgs, k, outcomes);
      var r0, r := BatchRecords(topic, paths, msgs, k - 1, outcomes, defaultEmail), BatchRecords(topic, paths, msgs, k, outcomes, defaultEmail);
      forall j | 0 <= j < |c|
        ensures c[j] < k && r[j] == Notice(topic, paths, msgs, c[j], outcomes, defaultEmail)
      {
        if j < |c0| {
          assert c[j] == c0[j] && r[j] == r0[j];
        }
      }
    }
  }

  /** The notification a processed message `i` of the batch gives rise to. */
  function Notice(topic: string, paths: VideoMessage -> Layout, msgs: seq<VideoMessage>, i: nat, outcomes: nat -> ItemOracle, defaultEmail: string): ProducerRecord
    requires i < |msgs|
  {
    RecordFor(topic, EventFor(msgs[i], paths(msgs[i]).key, ExitOf(outcomes(i).stages), defaultEmail, outcomes(i).notice))
  }

  /** One more message of the batch adds its notification exactly when it was claimed. */
  lemma RecordStep(topic: string, paths: VideoMessage -> Layout, msgs: seq<VideoMessage>, k: nat, outcomes: nat -> ItemOracle, defaultEmail: string)
    requires 0 < k <= |msgs|
    ensures var o := outcomes(k - 1);
      BatchRecords(topic, paths, msgs, k, outcomes, defaultEmail) == BatchRecords(topic, paths, msgs, k - 1, outcomes, defaultEmail)
        + if o.deleteErr.None? then [Notice(topic, paths, msgs, k - 1, outcomes, defaultEmail)] else []
  {
  }

  /** One more message of the batch adds the download of its key exactly when it was claimed. */
  lemma DownloadStep(paths: VideoMessage -> Layout, msgs: seq<VideoMessage>, k: nat, outcomes: nat -> ItemOracle)
    requires 0 < k <= |msgs|
    ensures Downloads(BatchCalls(paths, msgs, k, outcomes))
      == Downloads(BatchCalls(paths, msgs, k - 1, outcomes)) + (if outcomes(k - 1).deleteErr.None? then [msgs[k - 1].videoKey] else [])
  {
    ClaimBeforeProcessing(paths(msgs[k - 1]), msgs[k - 1], outcomes(k - 1), "", "");
    DownloadsAppend(BatchCalls(paths, msgs, k - 1, outcomes), ItemCalls(paths(msgs[k - 1]), msgs[k - 1], outcomes(k - 1)));
  }

}
