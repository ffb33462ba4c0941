/**
 * The worker's pipeline (cmd/server/main.go): one polling cycle claims each
 * received message by deleting it, then runs download, frame extraction, the
 * empty check, archiving and upload, sends one notification and removes the
 * files it registered for removal.
 *
 * The collaborators' outcomes are inputs (`Stages`, `NoticeOracle`,
 * `ItemOracle`); the worker records the calls it makes on them, and the local
 * filesystem is the set of existing paths.
 */
module Pipeline {
  import opened Wrappers
  import opened FilePath
  import opened Collaborators
  import opened Queue
  import opened Notification

  // ---------------------------------------------------------------------
  // Names and paths

  /** `getUserEmail`: the message's address, or the configured default when it has none. */
  function GetUserEmail(msg: VideoMessage, defaultEmail: string): (r: string)
    ensures msg.email != "" ==> r == msg.email
    ensures msg.email == "" ==> r == defaultEmail
  {
    if msg.email != "" then msg.email else defaultEmail
  }

  function WorkerTempDir(id: string): string {
    Join("temp", "worker-" + id)
  }

  function WorkerOutputDir(id: string): string {
    Join("outputs", "worker-" + id)
  }

  /** Where the video is downloaded: the key's base name in the worker's temp directory. */
  function LocalVideoPath(id: string, msg: VideoMessage): string {
    Join(WorkerTempDir(id), Base(msg.videoKey))
  }

  /** The extraction directory, named after the receipt handle. */
  function FramesDir(id: string, msg: VideoMessage): string {
    Join(WorkerTempDir(id), "frames_" + msg.videoId)
  }

  /** The archive's name: the key's base name without its extension, then "_frames.zip". */
  function ZipName(videoKey: string): (r: string)
    ensures |r| >= 11 && r[|r| - 11..] == "_frames.zip"
  {
    var b := Base(videoKey);
    b[..|b| - |Ext(b)|] + "_frames.zip"
  }

  function LocalZipPath(id: string, msg: VideoMessage): string {
    Join(WorkerOutputDir(id), ZipName(msg.videoKey))
  }

  function UploadKey(msg: VideoMessage): string {
    "processed/" + ZipName(msg.videoKey)
  }

  /** The location announced on success for an archive uploaded under `key`; it
      names the default bucket whatever bucket the worker was configured with. */
  function ArchiveLocation(key: string): string {
    "s3://video-service-bucket/" + key
  }

  /** The directories, files and upload key one run works with. */
  datatype Layout = Layout(tempDir: string, outputDir: string, video: string, frames: string, zip: string, key: string)

  /** The layout `processVideoMessage` computes for worker `id` and message `msg`. */
  function LayoutFor(id: string, msg: VideoMessage): Layout {
    Layout(WorkerTempDir(id), WorkerOutputDir(id), LocalVideoPath(id, msg), FramesDir(id, msg),
           LocalZipPath(id, msg), UploadKey(msg))
  }

  // ---------------------------------------------------------------------
  // Outcomes

  /** The outcomes of the four external stages of one run. */
  datatype Stages = Stages(download: DownloadResult, extract: ExtractResult, zip: ZipResult, upload: UploadResult)

  /** The notification's fresh id and timestamp, and the producer's outcome. */
  datatype NoticeOracle = NoticeOracle(eventId: string, timestamp: string, sendErr: Option<string>)

  /** Everything the environment decides about one received message. */
  datatype ItemOracle = ItemOracle(deleteErr: Option<string>, stages: Stages, notice: NoticeOracle)

  /** Where a run leaves `processVideoMessage`. */
  datatype Exit =
    | DownloadFailedExit(err: string)
    | ExtractFailedExit(err: string)
    | NoFramesExit
    | ZipFailedExit(err: string)
    | UploadFailedExit(err: string)
    | CompletedExit

  /** The first stage that fails, in pipeline order. */
  function ExitOf(s: Stages): Exit {
    if !s.download.Downloaded? then DownloadFailedExit(s.download.err)
    else if s.extract.ExtractFailed? then ExtractFailedExit(s.extract.err)
    else if s.extract.frames == [] then NoFramesExit
    else if !s.zip.Zipped? then ZipFailedExit(s.zip.err)
    else if s.upload.UploadFailed? then UploadFailedExit(s.upload.err)
    else CompletedExit
  }

  /** What `processVideoMessage` returns for a run. */
  function RunError(s: Stages): Option<string> {
    match ExitOf(s)
    case DownloadFailedExit(e) => Some(e)
    case ExtractFailedExit(e) => Some(e)
    case NoFramesExit => None
    case ZipFailedExit(e) => Some(e)
    case UploadFailedExit(e) => Some(e)
    case CompletedExit => None
  }

  /** The text of the failure notification sent at each failing exit. */
  function FailureMessage(e: Exit): string {
    match e
    case DownloadFailedExit(err) => "Erro ao baixar vídeo do S3: " + err
    case ExtractFailedExit(err) => "Erro ao extrair frames: " + err
    case NoFramesExit => "Nenhum frame foi extraído do vídeo"
    case ZipFailedExit(err) => "Erro ao criar arquivo ZIP: " + err
    case UploadFailedExit(err) => "Erro ao fazer upload do ZIP: " + err
    case CompletedExit => ""
  }

  /** The notification sent at exit `e` of a run that uploads under `key`. */
  function EventFor(msg: VideoMessage, key: string, e: Exit, defaultEmail: string, n: NoticeOracle): NotificationEvent {
    if e.CompletedExit? then
      CompletedEvent(n.eventId, n.timestamp, msg.idVideo, msg.titulo, ArchiveLocation(key), msg.autor,
                     GetUserEmail(msg, defaultEmail))
    else
      FailedEvent(n.eventId, n.timestamp, msg.idVideo, msg.titulo, FailureMessage(e), msg.autor,
                  GetUserEmail(msg, defaultEmail))
  }

  function Frames(s: Stages): seq<string> {
    if s.extract.Extracted? then s.extract.frames else []
  }

  /** All four stage calls, in pipeline order. */
  function Plan(l: Layout, msg: VideoMessage, s: Stages): seq<Call> {
    [Download(msg.videoKey, l.video), ExtractFrames(l.video, l.frames), CreateZip(Frames(s), l.zip), UploadZip(l.zip, l.key)]
  }

  /** How many stages run before a run leaves at exit `e`. */
  function StagesRun(e: Exit): nat {
    match e
    case DownloadFailedExit(_) => 1
    case ExtractFailedExit(_) => 2
    case NoFramesExit => 2
    case ZipFailedExit(_) => 3
    case UploadFailedExit(_) => 4
    case CompletedExit => 4
  }

  /** The stage calls a run makes: the plan up to the stage that decided the exit. */
  function StageCalls(l: Layout, msg: VideoMessage, s: Stages): seq<Call> {
    Plan(l, msg, s)[..StagesRun(ExitOf(s))]
  }

  /** The filesystem just before the deferred removals run. */
  function Produced(fs: set<string>, l: Layout, s: Stages): set<string> {
    var fs1 := fs + MkdirAll(l.tempDir) + MkdirAll(l.outputDir);
    match s.download
    case CreateFailed(_) => fs1
    case TransferFailed(_) => fs1 + {l.video}
    case Downloaded =>
      var fs2 := fs1 + {l.video} + MkdirAll(l.frames);
      match s.extract
      case ExtractFailed(_) => fs2
      case Extracted(frames) =>
        var fs3 := fs2 + Written(frames);
        if frames == [] then fs3 else fs3 + ZipLeft(l, s)
  }

  /** The archive file left by the archiving stage: none when it could not be created. */
  function ZipLeft(l: Layout, s: Stages): set<string> {
    if s.zip.ZipCreateFailed? then {} else {l.zip}
  }

  /** The removals registered with `defer` by the time a run returns. */
  function Registered(l: Layout, s: Stages): DeferStack {
    if !s.download.Downloaded? then Empty
    else
      var d := Deferred(RemoveAll(l.frames), Deferred(Remove(l.video), Empty));
      if s.extract.Extracted? && s.extract.frames != [] && s.zip.Zipped? then Deferred(Remove(l.zip), d)
      else d
  }

  /** The filesystem after a run. */
  function FinalFs(fs: set<string>, l: Layout, s: Stages): set<string> {
    Swept(Produced(fs, l, s), Registered(l, s))
  }

  // ---------------------------------------------------------------------
  // A polling cycle

  /** The messages a cycle handles: none when receiving failed. */
  function Received(response: Result<seq<RawMessage>, string>): seq<VideoMessage> {
    if response.Success? then Accepted(response.value) else []
  }

  /** The calls made for one message: its delete, then its stages if the delete succeeded. */
  function ItemCalls(l: Layout, msg: VideoMessage, o: ItemOracle): seq<Call> {
    if o.deleteErr.Some? then [DeleteMessage(msg.videoId)]
    else [DeleteMessage(msg.videoId)] + StageCalls(l, msg, o.stages)
  }

  /** The filesystem after one message: untouched when its delete failed. */
  function ItemFs(fs: set<string>, l: Layout, o: ItemOracle): set<string> {
    if o.deleteErr.Some? then fs else FinalFs(fs, l, o.stages)
  }

  /** The records sent for one message: none when its delete failed. */
  function ItemRecords(topic: string, l: Layout, msg: VideoMessage, o: ItemOracle, defaultEmail: string): seq<ProducerRecord> {
    if o.deleteErr.Some? then []
    else [RecordFor(topic, EventFor(msg, l.key, ExitOf(o.stages), defaultEmail, o.notice))]
  }

  /** Proof helper, not a property of the worker: appending a log piece by piece
      gives the same log as appending it whole. */
  lemma Reassociate<T>(log: seq<T>, before: seq<T>, item: seq<T>)
    ensures (log + before) + item == log + (before + item)
  {
  }

  /** The calls made for the first k messages of a batch. */
  function BatchCalls(paths: VideoMessage -> Layout, msgs: seq<VideoMessage>, k: nat, outcomes: nat -> ItemOracle): seq<Call>
    requires k <= |msgs|
  {
    if k == 0 then []
    else BatchCalls(paths, msgs, k - 1, outcomes) + ItemCalls(paths(msgs[k - 1]), msgs[k - 1], outcomes(k - 1))
  }

  /** The filesystem after the first k messages of a batch. */
  function BatchFs(fs: set<string>, paths: VideoMessage -> Layout, msgs: seq<VideoMessage>, k: nat, outcomes: nat -> ItemOracle): set<string>
    requires k <= |msgs|
  {
    if k == 0 then fs
    else ItemFs(BatchFs(fs, paths, msgs, k - 1, outcomes), paths(msgs[k - 1]), outcomes(k - 1))
  }

  /** The records sent for the first k messages of a batch. */
  function BatchRecords(topic: string, paths: VideoMessage -> Layout, msgs: seq<VideoMessage>, k: nat, outcomes: nat -> ItemOracle, defaultEmail: string)
    : seq<ProducerRecord>
    requires k <= |msgs|
  {
    if k == 0 then []
    else BatchRecords(topic, paths, msgs, k - 1, outcomes, defaultEmail) + ItemRecords(topic, paths(msgs[k - 1]), msgs[k - 1], outcomes(k - 1), defaultEmail)
  }

  // ---------------------------------------------------------------------
  // The worker

  /**
   * A worker process: its identity, its notifier (null when the broker was
   * unreachable at start-up), the local filesystem and the calls made so far.
   */
  class Worker {
    const id: string
    const name: string
    const defaultEmail: string
    const notifier: NotificationService?
    /** Where a run for a message puts its files and its archive. */
    const paths: VideoMessage -> Layout
    var fs: set<string>
    var calls: seq<Call>

    constructor(id: string, name: string, defaultEmail: string, notifier: NotificationService?, fs: set<string>)
      ensures this.id == id && this.name == name && this.defaultEmail == defaultEmail
      ensures this.notifier == notifier && this.fs == fs && calls == []
      ensures forall msg :: this.paths(msg) == LayoutFor(id, msg)
    {
      this.id := id;
      this.paths := msg => LayoutFor(id, msg);
      this.name := name;
      this.defaultEmail := defaultEmail;
      this.notifier := notifier;
      this.fs := fs;
      calls := [];
    }

    /**
     * `sendNotificationIfAvailable` around the notification for exit `e`: with no
     * notifier nothing is sent; a send error is dropped (only logged).
     */
    method SendNotificationIfAvailable(msg: VideoMessage, key: string, e: Exit, n: NoticeOracle)
      modifies notifier
      ensures notifier != null ==>
        notifier.sent == old(notifier.sent) + [RecordFor(notifier.topic, EventFor(msg, key, e, defaultEmail, n))]
    {
      if notifier != null {
        var err;
        if e.CompletedExit? {
          var userEmail := msg.email;
          if userEmail == "" {
            userEmail := defaultEmail;
          }
          err := notifier.SendProcessingCompleted(n.eventId, n.timestamp, msg.idVideo, msg.titulo,
                                                  ArchiveLocation(key), msg.autor, userEmail, n.sendErr);
        } else {
          err := notifier.SendProcessingFailed(n.eventId, n.timestamp, msg.idVideo, msg.titulo,
                                               FailureMessage(e), msg.autor, GetUserEmail(msg, defaultEmail), n.sendErr);
        }
      }
    }

    /** The deferred removals, run last-registered first. */
    method RunDeferred(deferred: DeferStack)
      modifies this
      ensures fs == Swept(old(fs), deferred) && calls == old(calls)
    {
      var d := deferred;
      while d.Deferred?
        invariant Swept(fs, d) == Swept(old(fs), deferred)
        invariant calls == old(calls)
        decreases d
      {
        fs := Apply(fs, d.top);
        d := d.below;
      }
    }

    /** `processVideoMessage`: compute the run's paths, then run the stages on them. */
    method ProcessVideoMessage(msg: VideoMessage, s: Stages, n: NoticeOracle) returns (err: Option<string>)
      modifies this, notifier
      ensures err == RunError(s)
      ensures calls == old(calls) + StageCalls(paths(msg), msg, s)
      ensures fs == FinalFs(old(fs), paths(msg), s)
      ensures notifier != null ==>
        notifier.sent == old(notifier.sent) + [RecordFor(notifier.topic, EventFor(msg, paths(msg).key, ExitOf(s), defaultEmail, n))]
    {
      var l := paths(msg);
      err := RunStages(msg, l, s, n);
    }

    /**
     * The stages of `processVideoMessage` on the paths of `l`. The stage calls
     * are gathered in `run` and entered in the log when the run returns;
     * `deferred` holds the removals registered with `defer`, the latest on top.
     */
    method RunStages(msg: VideoMessage, l: Layout, s: Stages, n: NoticeOracle) returns (err: Option<string>)
      modifies this, notifier
      ensures err == RunError(s)
      ensures calls == old(calls) + StageCalls(l, msg, s)
      ensures fs == FinalFs(old(fs), l, s)
      ensures notifier != null ==>
        notifier.sent == old(notifier.sent) + [RecordFor(notifier.topic, EventFor(msg, l.key, ExitOf(s), defaultEmail, n))]
    {
      fs := fs + MkdirAll(l.tempDir) + MkdirAll(l.outputDir);
      var deferred := Empty;

      var run := [Download(msg.videoKey, l.video)];
      if !s.download.Downloaded? {
        if s.download.TransferFailed? {
          fs := fs + {l.video};
        }
        Finish(msg, l.key, DownloadFailedExit(s.download.err), n, deferred, run);
        return Some(s.download.err);
      }
      fs := fs + {l.video};
      deferred := Deferred(Remove(l.video), deferred);

      fs := fs + MkdirAll(l.frames);
      deferred := Deferred(RemoveAll(l.frames), deferred);

      run := run + [ExtractFrames(l.video, l.frames)];
      if s.extract.ExtractFailed? {
        Finish(msg, l.key, ExtractFailedExit(s.extract.err), n, deferred, run);
        return Some(s.extract.err);
      }
      var frames := s.extract.frames;
      fs := fs + Written(frames);

      if |frames| == 0 {
        Finish(msg, l.key, NoFramesExit, n, deferred, run);
        return None;
      }
      err := ArchiveAndUpload(msg, l, s, n, deferred, run);
    }

    /**
     * The rest of `processVideoMessage` once frames were extracted: archive them
     * into the worker's output directory, register the archive's removal, upload it.
     */
    method ArchiveAndUpload(msg: VideoMessage, l: Layout, s: Stages, n: NoticeOracle, registered: DeferStack, made: seq<Call>)
      returns (err: Option<string>)
      requires s.download.Downloaded? && s.extract.Extracted? && s.extract.frames != []
      requires registered == Deferred(RemoveAll(l.frames), Deferred(Remove(l.video), Empty))
      requires made == [Download(msg.videoKey, l.video)] + [ExtractFrames(l.video, l.frames)]
      modifies this, notifier
      ensures err == RunError(s)
      ensures calls == old(calls) + StageCalls(l, msg, s)
      ensures fs == Swept(old(fs) + ZipLeft(l, s), Registered(l, s))
      ensures notifier != null ==>
        notifier.sent == old(notifier.sent) + [RecordFor(notifier.topic, EventFor(msg, l.key, ExitOf(s), defaultEmail, n))]
    {
      var frames := s.extract.frames;
      var run := made + [CreateZip(frames, l.zip)];
      if !s.zip.Zipped? {
        if s.zip.ZipEntryFailed? {
          fs := fs + {l.zip};
        } else {
          assert fs + ZipLeft(l, s) == fs;
        }
        assert registered == Registered(l, s);
        Finish(msg, l.key, ZipFailedExit(s.zip.err), n, registered, run);
        return Some(s.zip.err);
      }
      fs := fs + {l.zip};
      var deferred := Deferred(Remove(l.zip), registered);
      assert deferred == Registered(l, s);

      run := run + [UploadZip(l.zip, l.key)];
      if s.upload.UploadFailed? {
        Finish(msg, l.key, UploadFailedExit(s.upload.err), n, deferred, run);
        return Some(s.upload.err);
      }
      Finish(msg, l.key, CompletedExit, n, deferred, run);
      return None;
    }

    /**
     * How every return of `processVideoMessage` ends: the notification for the
     * exit, then the removals deferred so far (last registered first). `run`
     * holds the stage calls made.
     */
    method Finish(msg: VideoMessage, key: string, e: Exit, n: NoticeOracle, deferred: DeferStack, run: seq<Call>)
      modifies this, notifier
      ensures fs == Swept(old(fs), deferred) && calls == old(calls) + run
      ensures notifier != null ==>
        notifier.sent == old(notifier.sent) + [RecordFor(notifier.topic, EventFor(msg, key, e, defaultEmail, n))]
    {
      SendNotificationIfAvailable(msg, key, e, n);
      RunDeferred(deferred);
      calls := calls + run;
    }

    /** One turn of the receive loop: claim the message by deleting it, and process it only when the delete succeeded. */
    method HandleMessage(msg: VideoMessage, o: ItemOracle)
      modifies this, notifier
      ensures calls == old(calls) + ItemCalls(paths(msg), msg, o)
      ensures fs == ItemFs(old(fs), paths(msg), o)
      ensures notifier != null ==> notifier.sent == old(notifier.sent) + ItemRecords(notifier.topic, paths(msg), msg, o, defaultEmail)
    {
      calls := calls + [DeleteMessage(msg.videoId)];
      if o.deleteErr.Some? {
        return;
      }
      var err := ProcessVideoMessage(msg, o.stages, o.notice);
      assert calls == old(calls) + ([DeleteMessage(msg.videoId)] + StageCalls(paths(msg), msg, o.stages));
    }

    /** The calls, files and records after the first i messages of a batch, from a cycle that started at `calls0`, `fs0` and `sent0`. */
    ghost predicate Handled(msgs: seq<VideoMessage>, i: nat, outcomes: nat -> ItemOracle,
                            calls0: seq<Call>, fs0: set<string>, sent0: seq<ProducerRecord>)
      requires i <= |msgs|
      reads this, notifier
    {
      && calls == calls0 + BatchCalls(paths, msgs, i, outcomes)
      && fs == BatchFs(fs0, paths, msgs, i, outcomes)
      && (notifier != null ==> notifier.sent == sent0 + BatchRecords(notifier.topic, paths, msgs, i, outcomes, defaultEmail))
    }

    /**
     * One turn of the loop of `processMessages`: handling message i extends
     * the cycle's calls, files and records by that message's.
     */
    method HandleNext(msgs: seq<VideoMessage>, i: nat, outcomes: nat -> ItemOracle,
                      ghost calls0: seq<Call>, ghost fs0: set<string>, ghost sent0: seq<ProducerRecord>)
      requires i < |msgs|
      requires Handled(msgs, i, outcomes, calls0, fs0, sent0)
      modifies this, notifier
      ensures Handled(msgs, i + 1, outcomes, calls0, fs0, sent0)
    {
      HandleMessage(msgs[i], outcomes(i));
      Reassociate(calls0, BatchCalls(paths, msgs, i, outcomes), ItemCalls(paths(msgs[i]), msgs[i], outcomes(i)));
      if notifier != null {
        Reassociate(sent0, BatchRecords(notifier.topic, paths, msgs, i, outcomes, defaultEmail),
                    ItemRecords(notifier.topic, paths(msgs[i]), msgs[i], outcomes(i), defaultEmail));
      }
    }

    /** The loop of `processMessages` over the received messages, in order. */
    method ProcessBatch(msgs: seq<VideoMessage>, outcomes: nat -> ItemOracle)
      modifies this, notifier
      ensures calls == old(calls) + BatchCalls(paths, msgs, |msgs|, outcomes)
      ensures fs == BatchFs(old(fs), paths, msgs, |msgs|, outcomes)
      ensures notifier != null ==>
        notifier.sent == old(notifier.sent) + BatchRecords(notifier.topic, paths, msgs, |msgs|, outcomes, defaultEmail)
    {
      ghost var sent0 := if notifier != null then notifier.sent else [];
      for i := 0 to |msgs|
        invariant Handled(msgs, i, outcomes, old(calls), old(fs), sent0)
      {
        HandleNext(msgs, i, outcomes, old(calls), old(fs), sent0);
      }
    }

    /**
     * `processMessages`: one cycle. Each received message is claimed by deleting
     * it; a message whose delete fails is skipped, and a failed run does not
     * stop the cycle.
     */
    method ProcessMessages(response: Result<seq<RawMessage>, string>, outcomes: nat -> ItemOracle)
      modifies this, notifier
      ensures calls == old(calls) + BatchCalls(paths, Received(response), |Received(response)|, outcomes)
      ensures fs == BatchFs(old(fs), paths, Received(response), |Received(response)|, outcomes)
      ensures notifier != null ==>
        notifier.sent == old(notifier.sent) + BatchRecords(notifier.topic, paths, Received(response), |Received(response)|, outcomes, defaultEmail)
      // A receive error touches nothing.
      ensures response.Failure? ==>
        calls == old(calls) && fs == old(fs) && (notifier != null ==> notifier.sent == old(notifier.sent))
    {
      var messages := ReceiveMessages(response);
      if messages.Failure? {
        return;
      }
      ProcessBatch(messages.value, outcomes);
    }
  }
}
