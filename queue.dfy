/**
 * The queue gateway's message handling (internal/infrastructure/queue/sqs_service.go):
 * decoding a received batch, deriving the video key from the file path, and the
 * message `SendMessage` builds.
 */
module Queue {
  import opened Wrappers
  import opened FilePath

  /** The bucket prefix stripped from `file_path`. */
  const BucketPrefix := "s3://video-service-bucket/"

  /**
   * A work item. `videoKey` is derived from `filePath`; `videoId` holds the
   * receipt handle, not a video identifier (`idVideo` is that).
   */
  datatype VideoMessage = VideoMessage(
    idVideo: string,
    titulo: string,
    autor: string,
    status: string,
    filePath: string,
    dataCriacao: string,
    dataUpload: string,
    email: string,
    username: string,
    id: int,
    videoKey: string,
    videoId: string)

  /** A delivered message: its body as decoded from JSON (None when decoding
      fails) and its receipt handle. */
  datatype RawMessage = RawMessage(decoded: Option<VideoMessage>, receiptHandle: string)

  /** The video key of a message whose decoded `file_path` is `filePath` and
      whose decoded `VideoKey` is `decodedKey`. */
  function DeriveVideoKey(filePath: string, decodedKey: string): (r: string)
    ensures filePath == "" ==> r == decodedKey
    ensures filePath != "" ==> filePath == r || filePath == BucketPrefix + r
  {
    if filePath != "" then
      if HasPrefix(filePath, BucketPrefix) then filePath[|BucketPrefix|..] else filePath
    else decodedKey
  }

  /** What one delivered message becomes: dropped when it does not decode,
      otherwise keyed from its path and stamped with its receipt handle. */
  function Accept(raw: RawMessage): Option<VideoMessage> {
    match raw.decoded
    case None => None
    case Some(m) =>
      Some(m.(videoKey := DeriveVideoKey(m.filePath, m.videoKey), videoId := raw.receiptHandle))
  }

  /** The messages a batch yields, in delivery order. */
  function Accepted(raws: seq<RawMessage>): seq<VideoMessage> {
    if raws == [] then []
    else
      var last := raws[|raws| - 1];
      Accepted(raws[..|raws| - 1]) + (if Accept(last).Some? then [Accept(last).value] else [])
  }

  /**
   * `ReceiveMessages`. `response` is what the queue returned. A receive error
   * yields no messages and that error; otherwise each body is decoded into a
   * fresh record, its key derived, its receipt handle stored, and it is appended.
   */
  method ReceiveMessages(response: Result<seq<RawMessage>, string>) returns (r: Result<seq<VideoMessage>, string>)
    ensures response.Failure? ==> r == Failure(response.error)
    ensures response.Success? ==> r == Success(Accepted(response.value))
  {
    if response.Failure? {
      return Failure(response.error);
    }
    var raws := response.value;
    var messages: seq<VideoMessage> := [];
    for i := 0 to |raws|
      invariant messages == Accepted(raws[..i])
    {
      assert raws[..i + 1][..i] == raws[..i];
      if raws[i].decoded.None? {
        continue;
      }
      var videoMsg := raws[i].decoded.value;
      if videoMsg.filePath != "" {
        if HasPrefix(videoMsg.filePath, BucketPrefix) {
          videoMsg := videoMsg.(videoKey := videoMsg.filePath[|BucketPrefix|..]);
        } else {
          videoMsg := videoMsg.(videoKey := videoMsg.filePath);
        }
      }
      videoMsg := videoMsg.(videoId := raws[i].receiptHandle);
      messages := messages + [videoMsg];
    }
    assert raws[..|raws|] == raws;
    return Success(messages);
  }

  /** The body `SendMessage` publishes: only the key, in both key and id. */
  function OutgoingMessage(videoKey: string): (m: VideoMessage)
    ensures m.videoKey == videoKey && m.filePath == ""
    ensures forall handle :: Accept(RawMessage(Some(m), handle)) == Some(m.(videoId := handle))
  {
    VideoMessage("", "", "", "", "", "", "", "", "", 0, videoKey, videoKey)
  }

  // ---------------------------------------------------------------------
  // Properties

  /** Stripping undoes prefixing: a bucket path yields the key inside it. */
  lemma StripRoundTrip(key: string, decodedKey: string)
    ensures DeriveVideoKey(BucketPrefix + key, decodedKey) == key
  {
    var p := BucketPrefix + key;
    assert p[..|BucketPrefix|] == BucketPrefix;
    assert p[|BucketPrefix|..] == key;
  }

  /** Any other non-empty path, another bucket's included, is the key itself. */
  lemma FallbackIsIdentity(filePath: string, decodedKey: string)
    requires filePath != "" && !HasPrefix(filePath, BucketPrefix)
    ensures DeriveVideoKey(filePath, decodedKey) == filePath
  {
  }

  /** A path in another bucket is not stripped. */
  lemma OtherBucketNotStripped(rest: string, decodedKey: string)
    ensures DeriveVideoKey("s3://other-bucket/" + rest, decodedKey) == "s3://other-bucket/" + rest
  {
    var p := "s3://other-bucket/" + rest;
    assert p[5] == 'o' && BucketPrefix[5] == 'v';
    assert !HasPrefix(p, BucketPrefix);
  }

  /** An empty path leaves the decoded key untouched. */
  lemma EmptyPathKeepsKey(decodedKey: string)
    ensures DeriveVideoKey("", decodedKey) == decodedKey
  {
  }

  /** Positions in the batch of the messages that decode. */
  function AcceptedPositions(raws: seq<RawMessage>): seq<nat> {
    if raws == [] then []
    else
      var n := |raws| - 1;
      AcceptedPositions(raws[..n]) + (if Accept(raws[n]).Some? then [n] else [])
  }

  /**
   * Undecodable bodies are dropped and the survivors keep delivery order: the
   * result is the batch's decodable messages read at strictly increasing
   * positions, each carrying its own receipt handle, and every position whose
   * body decodes is among them.
   */
  lemma {:induction false} AcceptedInOrder(raws: seq<RawMessage>)
    ensures var idx := AcceptedPositions(raws);
      && |idx| == |Accepted(raws)| <= |raws|
      && (forall j :: 0 <= j < |idx| ==> idx[j] < |raws| && Accept(raws[idx[j]]) == Some(Accepted(raws)[j]))
      && (forall j :: 0 <= j < |idx| ==> Accepted(raws)[j].videoId == raws[idx[j]].receiptHandle)
      && (forall j, l :: 0 <= j < l < |idx| ==> idx[j] < idx[l])
      && (forall i :: 0 <= i < |raws| ==> (i in idx <==> raws[i].decoded.Some?))
  {
    AcceptedContents(raws);
    DecodablePositions(raws);
  }

  /** Message `j` of the result is the decoded body at accepted position `j`. */
  lemma {:induction false} AcceptedContents(raws: seq<RawMessage>)
    ensures var idx := AcceptedPositions(raws);
      && |idx| == |Accepted(raws)| <= |raws|
      && (forall j :: 0 <= j < |idx| ==> idx[j] < |raws| && Accept(raws[idx[j]]) == Some(Accepted(raws)[j]))
  {
    if raws != [] {
      var n := |raws| - 1;
      var pre := raws[..n];
      AcceptedContents(pre);
      var idx0, ms0 := AcceptedPositions(pre), Accepted(pre);
      var idx, ms := AcceptedPositions(raws), Accepted(raws);
      var last := Accept(raws[n]);
      assert idx == idx0 + if last.Some? then [n] else [];
      assert ms == ms0 + if last.Some? then [last.value] else [];
      assert forall j :: 0 <= j < |idx0| ==> idx[j] == idx0[j] && ms[j] == ms0[j] && raws[idx0[j]] == pre[idx0[j]];
    }
  }

  /** The accepted positions increase strictly and are exactly the positions whose body decodes. */
  lemma {:induction false} DecodablePositions(raws: seq<RawMessage>)
    ensures var idx := AcceptedPositions(raws);
      && (forall j :: 0 <= j < |idx| ==> idx[j] < |raws|)
      && (forall j, l :: 0 <= j < l < |idx| ==> idx[j] < idx[l])
      && (forall i :: 0 <= i < |raws| ==> (i in idx <==> raws[i].decoded.Some?))
  {
    if raws != [] {
      var n := |raws| - 1;
      var pre := raws[..n];
      DecodablePositions(pre);
      var idx0, idx := AcceptedPositions(pre), AcceptedPositions(raws);
      assert idx == idx0 + if raws[n].decoded.Some? then [n] else [];
      assert forall j :: 0 <= j < |idx0| ==> idx[j] == idx0[j];
      forall i | 0 <= i < n
        ensures raws[i] == pre[i]
      {
      }
    }
  }

  /** When every body decodes, nothing is dropped and message `i` carries handle `i`. */
  lemma {:induction false} AllDecodable(raws: seq<RawMessage>)
    requires forall i :: 0 <= i < |raws| ==> raws[i].decoded.Some?
    ensures |Accepted(raws)| == |raws|
    ensures forall i :: 0 <= i < |raws| ==> Accepted(raws)[i].videoId == raws[i].receiptHandle
  {
    if raws != [] {
      var n := |raws| - 1;
      AllDecodable(raws[..n]);
      assert forall i :: 0 <= i < n ==> Accepted(raws)[i] == Accepted(raws[..n])[i];
    }
  }

  /** A message built by `SendMessage` and received back keeps its key (its
      empty path leaves the key alone) and takes the receipt handle as id. */
  lemma SendThenReceive(videoKey: string, handle: string)
    ensures Accept(RawMessage(Some(OutgoingMessage(videoKey)), handle))
         == Some(OutgoingMessage(videoKey).(videoId := handle))
    ensures OutgoingMessage(videoKey).videoKey == OutgoingMessage(videoKey).videoId == videoKey
  {
  }
}
