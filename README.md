# Video frame worker — a Dafny model

This project models the core of a video-processing worker written in Go. The
worker polls a queue. It claims each work item by deleting it from the queue.
For each claimed item it then:

- downloads the video from the blob store into a worker-scoped directory;
- extracts one frame per second;
- packs the frames into `<name>_frames.zip`;
- uploads the archive under `processed/`;
- sends exactly one PROCESSED or FAILED notification to a Kafka topic.

Files registered with `defer` are removed when the run returns. The model also
covers the small rules around that pipeline:

- the queue message decoding and the video-key derivation;
- the video-extension rule and the `ListVideos` filter;
- the flat zip builder;
- the HTTP-path `ProcessVideo` and `ValidateVideoFile`;
- the notification event builders and their JSON form;
- the download endpoint's file-name guard.

The external services are not called. They become inputs to the model: S3
transfers, SQS calls, the Kafka producer and ffmpeg. Their outcomes are
parameters, such as `Stages`, `ItemOracle`, `ExtractResult`, `ZipResult`, the
producer's send error, the event id and the timestamp. The worker logs the calls
it makes on them, in order (`Worker.calls`). The local filesystem is the set of
existing paths (`Worker.fs`). The notifier logs every record it hands to the
producer (`NotificationService.sent`).

Files:

- `wrappers.dfy`: `Option` and `Result`.
- `filepath.dfy`: the subset of Go's `path/filepath` the code uses.
  - `Base`, `Ext` and `Join`.
  - `Clean`, with the lexical resolution of `.` and `..`.
  - ASCII lower-casing.
  - Lemmas about these.
- `collaborators.dfy`: the outcome datatypes of the external services, the call log entries, and the `defer` stack of removals.
- `queue.dfy`: `VideoMessage`, `ReceiveMessages` and the message `SendMessage` builds.
- `storage.dfy`: `isVideoFile` and `ListVideos`.
- `archive.dfy`: `CreateZipFile` and `addFileToZip`, with a `ZipWriter` class.
- `video_service.dfy`: `ProcessVideo` and `ValidateVideoFile`.
- `notification.dfy`: the event records, the builders, the JSON form, and a `NotificationService` class.
- `pipeline.dfy`: the `Worker` class, plus the reference functions its methods are proved against. The class models `processMessages`, `processVideoMessage` and `sendNotificationIfAvailable`.
- `pipeline_props.dfy`: the properties of a run and of a polling cycle, proved about those functions.
- `download.dfy`: the `downloadFile` guard of the file API.

Points of the code's own behaviour the model keeps as they are:

- `processVideoMessage` returns only an error, not a processing result.
  - It returns nil when no frame was extracted.
- The receipt handle is stored in the message's `VideoID` field. It is not kept apart from the video id.
- A run registers a removal for each file or directory it creates, but only once the step that creates it has succeeded. Some exits therefore leave files behind:
  - A download that created the local file and then failed leaves the file (`FailedDownloadLeaks`). Its removal is registered only after a successful download.
  - An archive that failed while adding an entry is left behind (`FailedZipLeaks`). Its removal is registered only after the archive was created successfully.
  - `os.MkdirAll` on the frames directory also creates its missing ancestors, and only the frames directory's tree is removed. A receipt handle `a/b` puts the frames in `temp/worker-{id}/frames_a/b`, and `temp/worker-{id}/frames_a` stays (`FramesAncestorsLeak`, `SlashedHandleLeaks`).
- The worker reads an `Email` field from the message record, although the struct in `sqs_service.go` declares none; `Username` and `ID` are used alongside it elsewhere in the repository. The model's `VideoMessage` carries `email`, `username` and `id`.
- The success notification names `s3://video-service-bucket/` whatever bucket the worker was configured with.

## Model

| member | source | states |
|---|---|---|
| Pipeline.GetUserEmail | cmd/server/main.go:24-29 | the message's e-mail when non-empty, otherwise the configured default |
| Pipeline.Worker.constructor | cmd/server/main.go:169-171 | a new worker with an empty call log; its paths for a message are the worker-scoped layout of `processVideoMessage` |
| Pipeline.Worker.SendNotificationIfAvailable | cmd/server/main.go:15-21 | with no notifier nothing is sent; otherwise exactly the event for the exit is handed to the producer, and a send error changes nothing else |
| Pipeline.Worker.RunDeferred | cmd/server/main.go:186-191 | the registered removals run last-registered first; the filesystem becomes the swept one and the call log is untouched |
| Pipeline.Worker.ProcessVideoMessage | cmd/server/main.go:163-254 | the returned error, the stage calls made, the filesystem left (including every directory `os.MkdirAll` created, ancestors too) and the one notification sent, each equal to the reference function of the stage outcomes |
| Pipeline.Worker.RunStages | cmd/server/main.go:170-210 | the same four facts as `ProcessVideoMessage`, for the download, extraction and empty-check stages on a given layout, with the directories and ancestors `os.MkdirAll` creates |
| Pipeline.Worker.ArchiveAndUpload | cmd/server/main.go:214-253 | after extraction: zip then upload; the error, calls, files (the archive left only when created) and the notification of the exit |
| Pipeline.Worker.Finish | cmd/server/main.go:181-186 | every return sends the exit's notification, runs the deferred removals and records the run's calls |
| Pipeline.Worker.HandleMessage | cmd/server/main.go:149-159 | one message: its delete is logged first; a failed delete skips processing, leaves the files alone and sends nothing |
| Pipeline.Worker.HandleNext | cmd/server/main.go:149-160 | handling message i extends the cycle's calls, files and records by exactly that message's |
| Pipeline.Worker.ProcessBatch | cmd/server/main.go:149-160 | the loop over the received messages: the calls, files and records of the whole batch, in receive order |
| Pipeline.Worker.ProcessMessages | cmd/server/main.go:135-161 | one cycle over the decoded messages; a receive error touches no call, file or notification |
| PipelineProps.RunErrorCases | cmd/server/main.go:179-253 | nil exactly on zero frames or full success; otherwise the failing stage's own error |
| PipelineProps.NotificationOfRun | cmd/server/main.go:179-250 | PROCESSED exactly when all four stages succeed, pointing at the uploaded archive; otherwise FAILED with the stage's non-empty message; the address is the message's or the default |
| PipelineProps.FailureMessages | cmd/server/main.go:181-236 | the failure text of each exit, word for word, and none of them is empty |
| PipelineProps.StagesShortCircuit | cmd/server/main.go:179-238 | the calls made are a prefix of download, extract, zip, upload; a stage is reached exactly when every earlier stage succeeded |
| PipelineProps.StageProjections | cmd/server/main.go:179-238 | a run deletes nothing and downloads the message's key exactly once |
| PipelineProps.CleanupAfterRun | cmd/server/main.go:186-227 | after a successful download the video and the whole frames tree are gone; the archive is gone after upload success or failure; every other path is kept |
| PipelineProps.RegisteredRemoves | cmd/server/main.go:186-227 | the deferred removals cover nothing before a successful download; then the video and the frames tree; then the archive once created |
| PipelineProps.FailedDownloadLeaks | cmd/server/main.go:178-186 | a download that created the file and then failed leaves it behind |
| PipelineProps.ZipLeftBehind | cmd/server/main.go:220-227 | an archive that failed after creation is not removed |
| PipelineProps.FramesAncestorsLeak | cmd/server/main.go:189-191 | once the download succeeded, an ancestor `os.MkdirAll` created for the frames directory that is neither the video nor the archive is still there when the run returns |
| PipelineProps.SlashedHandleLeaks | cmd/server/main.go:189-191 | a receipt handle `a/b` puts the frames in `temp/worker-{id}/frames_a/b`, and `temp/worker-{id}/frames_a` is left behind |
| PipelineProps.SlashedFramesDir | cmd/server/main.go:189 | the frames directory of a receipt handle `a/b` is `temp/worker-{id}/frames_a/b` |
| PipelineProps.VideoPath | cmd/server/main.go:178 | for a base name other than `..`, the video is the worker's temp directory itself (base `.` or `/`) or its child with the base name |
| PipelineProps.VideoNotSibling | cmd/server/main.go:178 | the video is the worker temp directory's child `f` only when the key's base name is `f` |
| PipelineProps.FailedZipLeaks | cmd/server/main.go:214-227 | for the worker's own layout, the archive of a failed archiving stage stays in the worker's output directory |
| PipelineProps.WorkerDirs | cmd/server/main.go:170-171 | the worker directories are `temp/worker-{id}` and `outputs/worker-{id}` |
| PipelineProps.PathsScoped | cmd/server/main.go:178-217 | the video and the frames directory lie under the worker's temp directory, the archive under its output directory |
| PipelineProps.VideoScoped | cmd/server/main.go:178 | the downloaded video lies under the worker's temp directory when the key's base name is not `..` |
| PipelineProps.FramesScoped | cmd/server/main.go:189 | the frames directory is a proper descendant of the worker's temp directory |
| PipelineProps.ArchiveScoped | cmd/server/main.go:217 | the local archive is a proper descendant of the worker's output directory, for every key |
| Pipeline.ZipName | cmd/server/main.go:215-216 | the archive name ends in `_frames.zip` |
| PipelineProps.ZipNameElements | cmd/server/main.go:215-216 | the archive name never resolves to `..` and keeps a path element |
| PipelineProps.DotDotKey | cmd/server/main.go:178 | a key whose base name is `..` puts the video at `temp` itself, outside the worker directory |
| PipelineProps.WorkersDisjoint | cmd/server/main.go:170-171 | workers with different ids share no temp or output path |
| PipelineProps.ZipNaming | cmd/server/main.go:215-241 | `dir/stem.ext` gives `stem_frames.zip`, the key `processed/stem_frames.zip` and the location in the default bucket |
| PipelineProps.ClaimBeforeProcessing | cmd/server/main.go:149-157 | a message's calls start with the delete of its receipt handle; it is downloaded and notified exactly when the delete succeeded |
| PipelineProps.ClaimedSpec | cmd/server/main.go:149-154 | the claimed positions are, in increasing order, exactly those whose delete succeeded |
| PipelineProps.BatchDeletesEveryMessage | cmd/server/main.go:149-154 | every received message is deleted, in receive order, whatever happened to earlier ones |
| PipelineProps.BatchDownloadsSpec | cmd/server/main.go:149-160 | the downloads of a batch are the keys of the claimed messages, in receive order |
| PipelineProps.BatchRecordsSpec | cmd/server/main.go:149-160 | the notifications of a batch are those of the claimed messages, in receive order |
| PipelineProps.BatchProcessesClaimed | cmd/server/main.go:149-160 | exactly the claimed messages are processed, each with one download and one notification of its own exit |
| Queue.ReceiveMessages | internal/infrastructure/queue/sqs_service.go:56-92 | a receive error is passed through with no messages; otherwise the decoded messages with derived keys and receipt handles, in order |
| Queue.DeriveVideoKey | internal/infrastructure/queue/sqs_service.go:77-84 | an empty path keeps the decoded key; otherwise the key is the path itself or the path with the default bucket's prefix removed |
| Queue.StripRoundTrip | internal/infrastructure/queue/sqs_service.go:78-80 | a path in the default bucket yields the key inside it |
| Queue.FallbackIsIdentity | internal/infrastructure/queue/sqs_service.go:81-83 | any other non-empty path is the key itself |
| Queue.OtherBucketNotStripped | internal/infrastructure/queue/sqs_service.go:79-83 | a path in another bucket is not stripped |
| Queue.EmptyPathKeepsKey | internal/infrastructure/queue/sqs_service.go:77 | an empty path leaves the decoded key as it was |
| Queue.AcceptedInOrder | internal/infrastructure/queue/sqs_service.go:66-89 | undecodable bodies are dropped and every decodable one is kept; survivors keep receive order, carry their own receipt handle and are no more than received |
| Queue.AllDecodable | internal/infrastructure/queue/sqs_service.go:86-88 | when every body decodes, message i carries receipt handle i |
| Queue.OutgoingMessage | internal/infrastructure/queue/sqs_service.go:102-106 | the message carries the key and no path; received back under any handle, it decodes to itself with that handle as id |
| Queue.SendThenReceive | internal/infrastructure/queue/sqs_service.go:102-106 | the sent message has the key in both key and id, and reads back with that key |
| Storage.ListVideos | internal/infrastructure/storage/s3_service.go:70-86 | a listing error is passed through; otherwise the video keys of the listing |
| Storage.VideoKeysSpec | internal/infrastructure/storage/s3_service.go:78-85 | exactly the listed keys that are videos, as an order-preserving subsequence taken at exactly the video positions (so each as often as listed), no longer than the listing |
| Storage.FilterMembers | internal/infrastructure/storage/s3_service.go:78-85 | a key survives the filter exactly when it is listed and accepted |
| Storage.FilterSubsequence | internal/infrastructure/storage/s3_service.go:78-85 | the filter result is the input read at strictly increasing positions, which are exactly the positions whose key is kept |
| Storage.FilterShorter | internal/infrastructure/storage/s3_service.go:78-85 | the filter never lengthens its input |
| Storage.IsVideoFile | internal/infrastructure/storage/s3_service.go:88-98 | an accepted name always has an extension; the lemmas below state which names are accepted |
| Storage.IsVideoFileLastExtension | internal/infrastructure/storage/s3_service.go:88-98 | only the final extension decides, lower-cased, against the seven |
| Storage.IsVideoFileIgnoresCase | internal/infrastructure/storage/s3_service.go:89 | a name and its lower-cased form get the same verdict |
| Storage.IsVideoFileIgnoresDirectory | internal/infrastructure/storage/s3_service.go:89 | a directory prefix does not change the verdict |
| Storage.IsVideoFileNeedsDot | internal/infrastructure/storage/s3_service.go:88-98 | a name with no dot is never a video |
| Storage.UpperCaseExtensionAccepted | internal/infrastructure/storage/s3_service.go:89-94 | any name ending in `.MP4` is accepted |
| Storage.LongExtensionRejected | internal/infrastructure/storage/s3_service.go:88-98 | a final extension longer than `.webm` is never accepted |
| Storage.TrailingExtensionRejected | internal/infrastructure/storage/s3_service.go:88-98 | `stem.mp4.backup` is rejected |
| Storage.IsVideoFileExamplesRejected | internal/infrastructure/storage/s3_service.go:88-98 | the empty name, `video`, `mp4` and `video.` are rejected |
| Archive.ReadablePrefix | internal/infrastructure/storage/zip_service.go:30-35 | how many sources from the front can be opened; the next one cannot |
| Archive.ZipWriter.constructor | internal/infrastructure/storage/zip_service.go:27 | a new writer holds no entries |
| Archive.ZipWriter.Write | internal/infrastructure/storage/zip_service.go:60-65 | one entry with the header and the copied content is appended |
| Archive.AddFileToZip | internal/infrastructure/storage/zip_service.go:40-67 | an unopenable source fails with the open error and writes nothing; otherwise one Deflate entry named by the base name |
| Archive.CreateZipFile | internal/infrastructure/storage/zip_service.go:20-38 | a create failure reads no source; otherwise the entries of the readable prefix, in order, and an error exactly at the first unopenable source |
| Archive.EntriesFlat | internal/infrastructure/storage/zip_service.go:57-58 | one entry per source, every one deflated and with no directory in its name |
| Archive.ArchiveRoundTrip | internal/infrastructure/storage/zip_service.go:30-65 | with distinct base names, each source reads back from the archive with its own bytes |
| VideoService.ProcessVideo | internal/domain/services/video_service.go:25-79 | success exactly when the error is nil; the result of each failure; on success the frame count, base names in order, archive name and id; the archive gets the frames unchanged; the temp tree is gone on every exit |
| VideoService.NatToString | internal/domain/services/video_service.go:73 | the frame count printed as decimal digits with no leading zero, whose value is the count |
| VideoService.CollectNames | internal/domain/services/video_service.go:65-69 | a slice of the frames' length whose entry i is the name of frame i |
| VideoService.ValidateVideoFile | internal/domain/services/video_service.go:81-91 | agrees with `isVideoFile` on every name |
| VideoService.ZipOutsideTempDir | internal/domain/services/video_service.go:29-53 | the archive is `outputs/frames_{ID}.zip`, outside the temporary directory |
| Notification.CompletedEvent | internal/infrastructure/notification/notification_service.go:115-131 | VIDEO_PROCESSED with the URL and no error message; the video id doubles as user id; name, e-mail and title as given |
| Notification.FailedEvent | internal/infrastructure/notification/notification_service.go:135-151 | VIDEO_FAILED with the error message and no URL; the other fields as for a completed event |
| Notification.BuildersDistinct | internal/infrastructure/notification/notification_service.go:115-151 | a completed and a failed event are never equal |
| Notification.BuiltEventMembers | internal/infrastructure/notification/notification_service.go:23-24 | on the wire a completed event never carries `errorMessage` and a failed one never `videoUrl` |
| Notification.OptionalMembers | internal/infrastructure/notification/notification_service.go:20-25 | `videoUrl` and `errorMessage` are serialised exactly when non-empty; the other data members always |
| Notification.DataRoundTrip | internal/infrastructure/notification/notification_service.go:20-25 | the data object reads back whichever members were omitted |
| Notification.EncodeEvent | internal/infrastructure/notification/notification_service.go:28-34 | the JSON object has the members `eventId`, `eventType`, `timestamp`, `user`, `data`, in that order |
| Notification.EventRoundTrip | internal/infrastructure/notification/notification_service.go:12-34 | decoding the JSON form of an event gives the event back |
| Notification.RecordFor | internal/infrastructure/notification/notification_service.go:96-100 | the record goes to the service's topic, keyed by the event id |
| Notification.RecordReadsBack | internal/infrastructure/notification/notification_service.go:87-100 | a consumer of the topic reads back the event the record was built from |
| Notification.NotificationService.constructor | internal/infrastructure/notification/notification_service.go:71-74 | a service on the given topic that has sent nothing |
| Notification.NotificationService.SendEvent | internal/infrastructure/notification/notification_service.go:83-112 | the record is handed to the producer and the producer's error is returned |
| Notification.NotificationService.SendProcessingCompleted | internal/infrastructure/notification/notification_service.go:115-132 | sends exactly the completed event and returns the send error |
| Notification.NotificationService.SendProcessingFailed | internal/infrastructure/notification/notification_service.go:135-152 | sends exactly the failed event and returns the send error |
| Collaborators.MkdirAllSpec | cmd/server/main.go:174-190 | after `os.MkdirAll(d)` exactly the non-empty paths that `d` lies under exist as directories |
| Collaborators.SweptRemoves | cmd/server/main.go:186-191 | after the deferred removals a path is left exactly when it existed and no removal targets it |
| Download.DownloadFile | cmd/api/main.go:53-70 | 400 exactly for names the guard rejects; a served path exists and lies under `outputs` |
| Download.ValidName | cmd/api/main.go:56-60 | a name passes the guard exactly when it contains neither `..` nor a `/` character |
| Download.RejectsTraversal | cmd/api/main.go:57-60 | a name is rejected exactly when it contains `..` or a `/` |
| Download.ValidationBeforeAccess | cmd/api/main.go:57-64 | whether a name is rejected does not depend on what exists |
| Download.AcceptedPath | cmd/api/main.go:57-62 | an accepted name joins to `outputs` itself or its direct child, never outside |
| Download.AcceptedOutcome | cmd/api/main.go:62-69 | an accepted name is served when its joined path exists, and reported missing otherwise |

## Left out

- `main` of the worker: environment defaults, start-up directory creation and the endless polling loop with its sleep. One `processMessages` cycle is modelled.
- The SDK and network calls are not modelled: S3, SQS (including `DeleteMessage`), the Kafka producer, `NewNotificationService` and `Close`. Their outcomes are parameters, and the calls made on them are logged.
- The ffmpeg extractor runs an external process. It is an outcome parameter: an error, or the list of frame paths it wrote.
- Logging is not modelled. A notification send error is only logged by the code, so it leaves no trace in the model.
- `os.MkdirAll` is modelled as always succeeding. The code ignores its result inside a run.
- `os.Stat` errors other than "does not exist" are not modelled: the download endpoint sees only whether the path exists.
- JSON encoding is modelled only as the members present and their order. The marshal error branch of `SendEvent` cannot arise for these records and is left out.
- UUIDs and the wall clock are parameters: the event id and the timestamp.
- `strings.ToLower` is modelled as ASCII lower-casing. Unicode case folding is not modelled.
- `listFiles` of the file API, the HTTP handlers and the file storage service are not part of this model.
- Archive.AddFileToZip: only a failure to open a source is modelled, with the "no such file or directory" text. Not modelled: failures of `file.Stat`, `zip.FileInfoHeader`, `CreateHeader` and `io.Copy`, where a failing `io.Copy` leaves a partial entry after the header; and other open errors, such as permission denied.
- The zip byte format is not modelled. An archive is its list of entries: name, method and content.
- Pipeline.Worker.RunDeferred: the filesystem is a set, so removing the archive and removing the video in either order give the same state. The last-in-first-out order of `defer` is modelled but not observable.
- Pipeline.Worker.constructor: the layout of a run (`LayoutFor`) is fixed at construction as the worker's `paths` function. The methods and batch lemmas are stated over that function, and the constructor ties it to the layout.
- PipelineProps.PathsScoped: holds only for a worker id without `/`, a key whose base name is not `..`, and a receipt handle with no `..` path element. `DotDotKey` shows what a `..` base name does.
- PipelineProps.StagesShortCircuit: the calls made are stated as a prefix of the four-call plan. The archive call carries the extracted frames.
