/**
 * The notification service (internal/infrastructure/notification/notification_service.go):
 * the event records, the two event builders, the JSON form of an event and the
 * record handed to the producer.
 *
 * The event id (a fresh UUID) and the timestamp (the wall clock) are parameters;
 * the producer's outcome is a parameter and every record handed to it is logged.
 */
module Notification {
  import opened Wrappers

  datatype User = User(id: string, name: string, email: string)

  datatype EventData = EventData(videoId: string, videoTitle: string, videoUrl: string, errorMessage: string)

  datatype NotificationEvent = NotificationEvent(
    eventId: string,
    eventType: string,
    timestamp: string,
    user: User,
    data: EventData)

  const VideoProcessed := "VIDEO_PROCESSED"
  const VideoFailed := "VIDEO_FAILED"

  // ---------------------------------------------------------------------
  // JSON form

  /** The part of JSON an event uses: strings and objects with ordered members. */
  datatype Json = JString(str: string) | JObject(members: seq<(string, Json)>)

  /** The member names of an object, in order. */
  function Keys(j: Json): seq<string> {
    match j
    case JString(_) => []
    case JObject(ms) => seq(|ms|, i requires 0 <= i < |ms| => ms[i].0)
  }

  /** An optional member: present only when its value is non-empty (`omitempty`). */
  function OmitEmpty(key: string, value: string): seq<(string, Json)> {
    if value == "" then [] else [(key, JString(value))]
  }

  function EncodeUser(u: User): Json {
    JObject([("id", JString(u.id)), ("name", JString(u.name)), ("email", JString(u.email))])
  }

  function EncodeData(d: EventData): Json {
    JObject([("videoId", JString(d.videoId)), ("videoTitle", JString(d.videoTitle))]
      + OmitEmpty("videoUrl", d.videoUrl) + OmitEmpty("errorMessage", d.errorMessage))
  }

  /** `json.Marshal` of an event, with the member names its struct tags give. */
  function EncodeEvent(e: NotificationEvent): (j: Json)
    ensures Keys(j) == ["eventId", "eventType", "timestamp", "user", "data"]
  {
    JObject([
      ("eventId", JString(e.eventId)),
      ("eventType", JString(e.eventType)),
      ("timestamp", JString(e.timestamp)),
      ("user", EncodeUser(e.user)),
      ("data", EncodeData(e.data))])
  }

  /** The value of the first member named `key`. */
  function Member(ms: seq<(string, Json)>, key: string): Option<Json> {
    if ms == [] then None
    else if ms[0].0 == key then Some(ms[0].1)
    else Member(ms[1..], key)
  }

  /** A string member read as Go's decoder reads it: absent means "". */
  function StringMember(j: Json, key: string): string {
    if j.JObject? && Member(j.members, key).Some? && Member(j.members, key).value.JString? then
      Member(j.members, key).value.str
    else ""
  }

  function ObjectMember(j: Json, key: string): Option<Json> {
    if j.JObject? && Member(j.members, key).Some? && Member(j.members, key).value.JObject? then
      Member(j.members, key)
    else None
  }

  /** Reading an event back from its JSON form. */
  function DecodeEvent(j: Json): Option<NotificationEvent> {
    match (ObjectMember(j, "user"), ObjectMember(j, "data"))
    case (Some(u), Some(d)) =>
      Some(NotificationEvent(
        StringMember(j, "eventId"), StringMember(j, "eventType"), StringMember(j, "timestamp"),
        User(StringMember(u, "id"), StringMember(u, "name"), StringMember(u, "email")),
        EventData(StringMember(d, "videoId"), StringMember(d, "videoTitle"),
                  StringMember(d, "videoUrl"), StringMember(d, "errorMessage"))))
    case _ => None
  }

  /** A member whose name no other member shares is found by that name. */
  lemma {:induction false} MemberOf(ms: seq<(string, Json)>, i: nat)
    requires i < |ms|
    requires forall j :: 0 <= j < |ms| && j != i ==> ms[j].0 != ms[i].0
    ensures Member(ms, ms[i].0) == Some(ms[i].1)
  {
    if i > 0 {
      MemberOf(ms[1..], i - 1);
    }
  }

  /** A name no member has is absent. */
  lemma {:induction false} MemberAbsent(ms: seq<(string, Json)>, key: string)
    requires forall j :: 0 <= j < |ms| ==> ms[j].0 != key
    ensures Member(ms, key) == None
  {
    if ms != [] {
      MemberAbsent(ms[1..], key);
    }
  }

  /** Each string member of an object with distinct names reads back as written. */
  lemma ReadsBack(ms: seq<(string, Json)>, i: nat)
    requires i < |ms| && ms[i].1.JString?
    requires forall j :: 0 <= j < |ms| && j != i ==> ms[j].0 != ms[i].0
    ensures StringMember(JObject(ms), ms[i].0) == ms[i].1.str
  {
    MemberOf(ms, i);
  }

  /** The data object reads back whichever optional members were omitted. */
  lemma DataRoundTrip(d: EventData)
    ensures var j := EncodeData(d);
      && StringMember(j, "videoId") == d.videoId
      && StringMember(j, "videoTitle") == d.videoTitle
      && StringMember(j, "videoUrl") == d.videoUrl
      && StringMember(j, "errorMessage") == d.errorMessage
  {
    var ms := EncodeData(d).members;
    ReadsBack(ms, 0);
    ReadsBack(ms, 1);
    if d.videoUrl == "" {
      MemberAbsent(ms, "videoUrl");
    } else {
      ReadsBack(ms, 2);
    }
    if d.errorMessage == "" {
      MemberAbsent(ms, "errorMessage");
    } else {
      ReadsBack(ms, |ms| - 1);
    }
  }

  /** Omitting an empty member loses nothing: decoding gives the event back. */
  lemma EventRoundTrip(e: NotificationEvent)
    ensures DecodeEvent(EncodeEvent(e)) == Some(e)
  {
    var top := EncodeEvent(e).members;
    ReadsBack(top, 0);
    ReadsBack(top, 1);
    ReadsBack(top, 2);
    MemberOf(top, 3);
    MemberOf(top, 4);
    var us := EncodeUser(e.user).members;
    ReadsBack(us, 0);
    ReadsBack(us, 1);
    ReadsBack(us, 2);
    DataRoundTrip(e.data);
  }

  /** `videoUrl` and `errorMessage` appear in the serialised event exactly when non-empty;
      the other members always appear. */
  lemma OptionalMembers(d: EventData)
    ensures "videoUrl" in Keys(EncodeData(d)) <==> d.videoUrl != ""
    ensures "errorMessage" in Keys(EncodeData(d)) <==> d.errorMessage != ""
    ensures "videoId" in Keys(EncodeData(d)) && "videoTitle" in Keys(EncodeData(d))
  {
    var ks := Keys(EncodeData(d));
    assert ks[0] == "videoId" && ks[1] == "videoTitle";
    if d.videoUrl != "" {
      assert ks[2] == "videoUrl";
    }
    if d.errorMessage != "" {
      assert ks[|ks| - 1] == "errorMessage";
    }
  }

  // ---------------------------------------------------------------------
  // Builders

  /**
   * The event `SendProcessingCompleted` sends. The video id doubles as the user id;
   * the URL is carried, no error message is, and the builder accepts any input.
   */
  function CompletedEvent(eventId: string, timestamp: string, videoId: string, videoTitle: string,
                          videoUrl: string, userName: string, userEmail: string): (e: NotificationEvent)
    ensures e.eventType == VideoProcessed
    ensures e.user.id == e.data.videoId == videoId
    ensures e.user.name == userName && e.user.email == userEmail && e.data.videoTitle == videoTitle
    ensures e.data.videoUrl == videoUrl && e.data.errorMessage == ""
  {
    NotificationEvent(eventId, VideoProcessed, timestamp,
      User(videoId, userName, userEmail), EventData(videoId, videoTitle, videoUrl, ""))
  }

  /**
   * The event `SendProcessingFailed` sends: as above, with the error message in
   * place of the URL.
   */
  function FailedEvent(eventId: string, timestamp: string, videoId: string, videoTitle: string,
                       errorMessage: string, userName: string, userEmail: string): (e: NotificationEvent)
    ensures e.eventType == VideoFailed
    ensures e.user.id == e.data.videoId == videoId
    ensures e.user.name == userName && e.user.email == userEmail && e.data.videoTitle == videoTitle
    ensures e.data.errorMessage == errorMessage && e.data.videoUrl == ""
  {
    NotificationEvent(eventId, VideoFailed, timestamp,
      User(videoId, userName, userEmail), EventData(videoId, videoTitle, "", errorMessage))
  }

  /** On the wire a completed event carries `videoUrl` (when non-empty) and never
      `errorMessage`; a failed event the other way round. */
  lemma BuiltEventMembers(eventId: string, timestamp: string, videoId: string, videoTitle: string,
                          videoUrl: string, errorMessage: string, userName: string, userEmail: string)
    ensures var d := CompletedEvent(eventId, timestamp, videoId, videoTitle, videoUrl, userName, userEmail).data;
      && "errorMessage" !in Keys(EncodeData(d))
      && ("videoUrl" in Keys(EncodeData(d)) <==> videoUrl != "")
    ensures var d := FailedEvent(eventId, timestamp, videoId, videoTitle, errorMessage, userName, userEmail).data;
      && "videoUrl" !in Keys(EncodeData(d))
      && ("errorMessage" in Keys(EncodeData(d)) <==> errorMessage != "")
  {
    OptionalMembers(CompletedEvent(eventId, timestamp, videoId, videoTitle, videoUrl, userName, userEmail).data);
    OptionalMembers(FailedEvent(eventId, timestamp, videoId, videoTitle, errorMessage, userName, userEmail).data);
  }

  /** A completed and a failed event can never be mistaken for one another. */
  lemma BuildersDistinct(eventId: string, timestamp: string, videoId: string, videoTitle: string,
                         videoUrl: string, errorMessage: string, userName: string, userEmail: string)
    ensures CompletedEvent(eventId, timestamp, videoId, videoTitle, videoUrl, userName, userEmail)
         != FailedEvent(eventId, timestamp, videoId, videoTitle, errorMessage, userName, userEmail)
  {
    assert VideoProcessed[6] != VideoFailed[6];
  }

  // ---------------------------------------------------------------------
  // Producer

  /** What goes to the producer: the topic, the event id as key, the JSON as value. */
  datatype ProducerRecord = ProducerRecord(topic: string, key: string, value: Json)

  /** The record for `event` on `topic`, keyed by the event id. */
  function RecordFor(topic: string, event: NotificationEvent): (r: ProducerRecord)
    ensures r.topic == topic && r.key == event.eventId
  {
    ProducerRecord(topic, event.eventId, EncodeEvent(event))
  }

  /** A consumer of the topic reads back the event a record was built from. */
  lemma RecordReadsBack(topic: string, event: NotificationEvent)
    ensures DecodeEvent(RecordFor(topic, event).value) == Some(event)
  {
    EventRoundTrip(event);
  }

  /** The notification service. `sent` logs every record handed to the producer. */
  class NotificationService {
    const topic: string
    var sent: seq<ProducerRecord>

    constructor(topic: string)
      ensures this.topic == topic && sent == []
    {
      this.topic := topic;
      sent := [];
    }

    /** `SendEvent`: hand the record to the producer and return its error, if any. */
    method SendEvent(event: NotificationEvent, sendErr: Option<string>) returns (err: Option<string>)
      modifies this
      ensures err == sendErr
      ensures sent == old(sent) + [RecordFor(topic, event)]
    {
      var record := RecordFor(topic, event);
      sent := sent + [record];
      return sendErr;
    }

    method SendProcessingCompleted(eventId: string, timestamp: string, videoId: string, videoTitle: string,
                                   videoUrl: string, userName: string, userEmail: string, sendErr: Option<string>)
      returns (err: Option<string>)
      modifies this
      ensures err == sendErr
      ensures sent == old(sent)
        + [RecordFor(topic, CompletedEvent(eventId, timestamp, videoId, videoTitle, videoUrl, userName, userEmail))]
    {
      var event := CompletedEvent(eventId, timestamp, videoId, videoTitle, videoUrl, userName, userEmail);
      err := SendEvent(event, sendErr);
    }

    method SendProcessingFailed(eventId: string, timestamp: string, videoId: string, videoTitle: string,
                                errorMessage: string, userName: string, userEmail: string, sendErr: Option<string>)
      returns (err: Option<string>)
      modifies this
      ensures err == sendErr
      ensures sent == old(sent)
        + [RecordFor(topic, FailedEvent(eventId, timestamp, videoId, videoTitle, errorMessage, userName, userEmail))]
    {
      var event := FailedEvent(eventId, timestamp, videoId, videoTitle, errorMessage, userName, userEmail);
      err := SendEvent(event, sendErr);
    }
  }
}
