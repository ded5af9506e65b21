/** The publisher (`KafkaRestClient`): validate the request, compose the
    destination, build the envelope, serialize it once and send it once.

    The collaborators are parameters: the serializer and the rest client are
    fields of the client, `GetPartitionKey` is a function on records, and the
    framework routines the pipeline relies on (`Char.IsWhiteSpace`,
    `Uri.TryCreate` with `UriKind.Absolute`, and the URI check of the
    `HttpRequestMessage` constructor) are fields of `Platform`. The
    asynchronous send is modelled as a plain call. */
module KafkaRestClients {
  import opened Wrappers
  import opened Strings
  import opened RecordModels
  import opened PostRecordsModels
  import opened PostSingleRecordRequests
  import opened PostMultipleRecordsRequests

  /** What the rest client returns; the publisher never looks inside it. */
  datatype HttpResponse = HttpResponse(statusCode: int, content: string)

  /** The two exception types the client throws. */
  datatype ArgumentError =
    | ArgumentNull     // ArgumentNullException
    | ArgumentInvalid  // ArgumentException

  /** A call into a collaborator, in the order it happens. */
  datatype Effect<T> =
    | Serialized(model: PostRecordsModel<T>)
    | Sent(uri: string, body: string)

  /** The response (or the exception thrown instead) and the collaborator
      calls made on the way. */
  datatype Outcome<T> = Outcome(response: Result<HttpResponse, ArgumentError>, effects: seq<Effect<T>>)

  /** The client as constructed: the rest client, the serializer (which may
      return null) and the proxy's base URL (possibly null). */
  datatype KafkaRestClient<!T> = KafkaRestClient(
    restClient: (string, string) -> HttpResponse,
    serializer: PostRecordsModel<T> -> Option<string>,
    kafkaRestProxyUrl: Option<string>)

  /** `isRequestUri` is the URI check of `new HttpRequestMessage(method, uri)`:
      on .NET Framework and .NET Core up to 3.1 it refuses, with
      `ArgumentException`, any absolute URI whose scheme is not http or https;
      on later runtimes it accepts every URI. */
  datatype Platform = Platform(
    isWhiteSpace: char -> bool,
    isAbsoluteUri: string -> bool,
    isRequestUri: string -> bool)

  const TopicsSegment: string := "/topics/"

  /** A hole of an interpolated string renders null as nothing. */
  function Interpolated(s: Option<string>): string
  {
    match s
    case None => ""
    case Some(text) => text
  }

  /** `$"{url}/topics/{topic}"`: the base URL, the fixed segment and the topic,
      each readable back from its position in the result. */
  function DestinationUriString(url: Option<string>, topic: string): (s: string)
    ensures |s| == |Interpolated(url)| + |TopicsSegment| + |topic|
    ensures s[..|Interpolated(url)|] == Interpolated(url)
    ensures s[|Interpolated(url)|..|Interpolated(url)| + |TopicsSegment|] == TopicsSegment
    ensures s[|Interpolated(url)| + |TopicsSegment|..] == topic
  {
    Interpolated(url) + TopicsSegment + topic
  }

  /** For a fixed base URL, distinct topics give distinct destinations. */
  lemma DestinationDeterminesTopic(url: Option<string>, t1: string, t2: string)
    requires DestinationUriString(url, t1) == DestinationUriString(url, t2)
    ensures t1 == t2
  {
    var k := |Interpolated(url)| + |TopicsSegment|;
    assert t1 == DestinationUriString(url, t1)[k..];
  }

  /** `records.Any(record => record == null)`, scanning left to right. */
  function AnyNull<T>(records: seq<Option<T>>): (r: bool)
    ensures r <==> exists i :: 0 <= i < |records| && records[i].None?
  {
    if |records| == 0 then false
    else records[0].None? || AnyNull(records[1..])
  }

  /** The records of a sequence with no null in it. */
  function Present<T>(records: seq<Option<T>>): (rs: seq<T>)
    requires forall i :: 0 <= i < |records| ==> records[i].Some?
    ensures |rs| == |records|
    ensures forall i :: 0 <= i < |rs| ==> records[i] == Some(rs[i])
  {
    if |records| == 0 then []
    else [records[0].value] + Present(records[1..])
  }

  /** `records.Select(record => new RecordModel(record, record.GetPartitionKey()))`. */
  function SelectRecordModels<T>(getPartitionKey: T -> Option<string>, records: seq<T>): (ms: seq<RecordModel<T>>)
    ensures |ms| == |records|
    ensures forall i :: 0 <= i < |records| ==> ms[i] == RecordModel(records[i], getPartitionKey(records[i]))
  {
    if |records| == 0 then []
    else [RecordModel(records[0], getPartitionKey(records[0]))] + SelectRecordModels(getPartitionKey, records[1..])
  }

  /** The envelope for one record: exactly one entry, the record with its key. */
  function CreateMessageWithSingleRecord<T>(getPartitionKey: T -> Option<string>, record: T): (m: PostRecordsModel<T>)
    ensures |m.records| == 1
    ensures m.records[0].value == record && m.records[0].key == getPartitionKey(record)
  {
    FromRecord(RecordModel(record, getPartitionKey(record)))
  }

  /** The envelope for a batch: entry `i` is record `i` with its key, so the
      input order is kept and an empty batch gives an empty envelope. */
  function CreateMessageWithMultipleRecords<T>(getPartitionKey: T -> Option<string>, records: seq<T>): (m: PostRecordsModel<T>)
    ensures |m.records| == |records|
    ensures forall i :: 0 <= i < |records| ==> m.records[i].value == records[i]
    ensures forall i :: 0 <= i < |records| ==> m.records[i].key == getPartitionKey(records[i])
  {
    PostRecordsModel(SelectRecordModels(getPartitionKey, records))
  }

  /** The values of a batch envelope are the batch itself. */
  function Values<T>(m: PostRecordsModel<T>): (vs: seq<T>)
    ensures |vs| == |m.records|
    ensures forall i :: 0 <= i < |vs| ==> vs[i] == m.records[i].value
  {
    seq(|m.records|, i requires 0 <= i < |m.records| => m.records[i].value)
  }

  lemma ValuesOfBatchMessage<T>(getPartitionKey: T -> Option<string>, records: seq<T>)
    ensures Values(CreateMessageWithMultipleRecords(getPartitionKey, records)) == records
  {
  }

  /** A batch of one yields the same envelope as the single-record path. */
  lemma BatchOfOneIsSingle<T>(getPartitionKey: T -> Option<string>, record: T)
    ensures CreateMessageWithMultipleRecords(getPartitionKey, [record])
         == CreateMessageWithSingleRecord(getPartitionKey, record)
  {
  }

  /** Mapping a concatenation is the concatenation of the mappings: each entry
      depends on its own record only. */
  lemma {:induction false} SelectDistributesOverConcat<T>(getPartitionKey: T -> Option<string>, a: seq<T>, b: seq<T>)
    ensures SelectRecordModels(getPartitionKey, a + b)
         == SelectRecordModels(getPartitionKey, a) + SelectRecordModels(getPartitionKey, b)
  {
    var l := SelectRecordModels(getPartitionKey, a + b);
    var r := SelectRecordModels(getPartitionKey, a) + SelectRecordModels(getPartitionKey, b);
    assert |l| == |r|;
    forall i | 0 <= i < |l|
      ensures l[i] == r[i]
    {
      if i < |a| {
        assert (a + b)[i] == a[i];
      } else {
        assert (a + b)[i] == b[i - |a|];
      }
    }
  }

  /** Reference definition of a topic the publisher accepts. */
  ghost predicate Accepted(url: Option<string>, platform: Platform, topic: Option<string>)
  {
    !Blank(topic, platform.isWhiteSpace) && platform.isAbsoluteUri(DestinationUriString(url, topic.value))
  }

  /** The checks of `PostSingleRecordAsync`, in order: request, record, topic,
      destination. On success, the record and the destination. */
  function ValidateSingle<T>(client: KafkaRestClient<T>, platform: Platform, request: Option<PostSingleRecordRequest<T>>)
    : (r: Result<(T, string), ArgumentError>)
    ensures r.Failure? && r.error == ArgumentNull <==> request.None? || request.value.record.None?
    ensures r.Failure? && r.error == ArgumentInvalid
        <==> request.Some? && request.value.record.Some?
             && !Accepted(client.kafkaRestProxyUrl, platform, request.value.topic)
    ensures r.Success? ==>
              && request.Some? && request.value.record == Some(r.value.0)
              && request.value.topic.Some?
              && r.value.1 == DestinationUriString(client.kafkaRestProxyUrl, request.value.topic.value)
  {
    if request.None? then Failure(ArgumentNull)
    else if request.value.record.None? then Failure(ArgumentNull)
    else if IsNullOrWhiteSpace(request.value.topic, platform.isWhiteSpace) then Failure(ArgumentInvalid)
    else
      var uri := DestinationUriString(client.kafkaRestProxyUrl, request.value.topic.value);
      if !platform.isAbsoluteUri(uri) then Failure(ArgumentInvalid)
      else Success((request.value.record.value, uri))
  }

  /** The checks of `PostMultipleRecordsAsync`, in order: request, records
      sequence, each element, topic, destination. An empty sequence passes. */
  function ValidateMultiple<T>(client: KafkaRestClient<T>, platform: Platform, request: Option<PostMultipleRecordsRequest<T>>)
    : (r: Result<(seq<T>, string), ArgumentError>)
    ensures r.Failure? && r.error == ArgumentNull
        <==> request.None? || request.value.records.None?
             || exists i :: 0 <= i < |request.value.records.value| && request.value.records.value[i].None?
    ensures r.Failure? && r.error == ArgumentInvalid
        <==> request.Some? && request.value.records.Some?
             && (forall i :: 0 <= i < |request.value.records.value| ==> request.value.records.value[i].Some?)
             && !Accepted(client.kafkaRestProxyUrl, platform, request.value.topic)
    ensures r.Success? ==>
              && request.Some? && request.value.records.Some?
              && |r.value.0| == |request.value.records.value|
              && (forall i :: 0 <= i < |r.value.0| ==> request.value.records.value[i] == Some(r.value.0[i]))
              && request.value.topic.Some?
              && r.value.1 == DestinationUriString(client.kafkaRestProxyUrl, request.value.topic.value)
  {
    if request.None? then Failure(ArgumentNull)
    else if request.value.records.None? then Failure(ArgumentNull)
    else if AnyNull(request.value.records.value) then Failure(ArgumentNull)
    else if IsNullOrWhiteSpace(request.value.topic, platform.isWhiteSpace) then Failure(ArgumentInvalid)
    else
      var uri := DestinationUriString(client.kafkaRestProxyUrl, request.value.topic.value);
      if !platform.isAbsoluteUri(uri) then Failure(ArgumentInvalid)
      else Success((Present(request.value.records.value), uri))
  }

  /** Serialize the envelope once, then build the HTTP request and send it.
      The `HttpRequestMessage` constructor runs first and throws
      `ArgumentException` for a destination it refuses; then a null
      serialization makes the `StringContent` constructor throw
      `ArgumentNullException`; only otherwise is the body handed to the rest
      client, once. */
  function Dispatch<T>(client: KafkaRestClient<T>, platform: Platform, uri: string, model: PostRecordsModel<T>): Outcome<T>
  {
    var serialized := client.serializer(model);
    if !platform.isRequestUri(uri) then Outcome(Failure(ArgumentInvalid), [Serialized(model)])
    else
      match serialized
      case None => Outcome(Failure(ArgumentNull), [Serialized(model)])
      case Some(body) => Outcome(Success(client.restClient(uri, body)), [Serialized(model), Sent(uri, body)])
  }

  /** Exactly one serialization, of `model`. A destination the request
      constructor refuses throws `ArgumentException` and a null serialization
      throws `ArgumentNullException`, both with nothing sent; otherwise exactly
      one send of the body to `uri` follows and the response is what the rest
      client returned for it. */
  ghost predicate Dispatched<T>(
    client: KafkaRestClient<T>, platform: Platform, o: Outcome<T>, uri: string, model: PostRecordsModel<T>)
  {
    && (!platform.isRequestUri(uri) ==>
          o.effects == [Serialized(model)] && o.response == Failure(ArgumentInvalid))
    && (platform.isRequestUri(uri) && client.serializer(model).None? ==>
          o.effects == [Serialized(model)] && o.response == Failure(ArgumentNull))
    && (platform.isRequestUri(uri) && client.serializer(model).Some? ==>
          && o.effects == [Serialized(model), Sent(uri, client.serializer(model).value)]
          && o.response == Success(client.restClient(uri, client.serializer(model).value)))
  }

  /** The envelope holds the given records, none of them null, in their
      order, each with its own partition key. */
  ghost predicate KeyedInOrder<T>(model: PostRecordsModel<T>, records: seq<Option<T>>, getPartitionKey: T -> Option<string>)
  {
    && |model.records| == |records|
    && forall i :: 0 <= i < |records| ==>
         && records[i] == Some(model.records[i].value)
         && model.records[i].key == getPartitionKey(model.records[i].value)
  }

  /** `PostSingleRecordAsync`: a failed check throws with no effects;
      otherwise the one-entry envelope is serialized once and, unless the
      request constructor refuses the destination or the serialization is
      null, sent once, and the rest client's response comes back unchanged,
      whatever its status. */
  function PostSingleRecordAsync<T>(
    client: KafkaRestClient<T>, platform: Platform, getPartitionKey: T -> Option<string>,
    request: Option<PostSingleRecordRequest<T>>): (o: Outcome<T>)
    ensures o.effects == [] <==> ValidateSingle(client, platform, request).Failure?
    ensures ValidateSingle(client, platform, request).Failure? ==>
      o.response == Failure(ValidateSingle(client, platform, request).error)
    ensures ValidateSingle(client, platform, request).Success? ==>
      && request.Some? && request.value.record.Some? && request.value.topic.Some?
      && Dispatched(client, platform, o,
           DestinationUriString(client.kafkaRestProxyUrl, request.value.topic.value),
           PostRecordsModel([RecordModel(request.value.record.value, getPartitionKey(request.value.record.value))]))
  {
    match ValidateSingle(client, platform, request)
    case Failure(e) => Outcome(Failure(e), [])
    case Success((record, uri)) => Dispatch(client, platform, uri, CreateMessageWithSingleRecord(getPartitionKey, record))
  }

  /** `PostMultipleRecordsAsync`: as above, with one envelope for the whole
      batch holding the records in input order, and at most one send (never
      one per record). */
  function PostMultipleRecordsAsync<T>(
    client: KafkaRestClient<T>, platform: Platform, getPartitionKey: T -> Option<string>,
    request: Option<PostMultipleRecordsRequest<T>>): (o: Outcome<T>)
    ensures o.effects == [] <==> ValidateMultiple(client, platform, request).Failure?
    ensures ValidateMultiple(client, platform, request).Failure? ==>
      o.response == Failure(ValidateMultiple(client, platform, request).error)
    ensures ValidateMultiple(client, platform, request).Success? ==>
      && request.Some? && request.value.records.Some? && request.value.topic.Some?
      && |o.effects| > 0 && o.effects[0].Serialized?
      && Dispatched(client, platform, o,
           DestinationUriString(client.kafkaRestProxyUrl, request.value.topic.value), o.effects[0].model)
      && KeyedInOrder(o.effects[0].model, request.value.records.value, getPartitionKey)
  {
    match ValidateMultiple(client, platform, request)
    case Failure(e) => Outcome(Failure(e), [])
    case Success((records, uri)) =>
      var model := CreateMessageWithMultipleRecords(getPartitionKey, records);
      var o := Dispatch(client, platform, uri, model);
      assert Dispatched(client, platform, o, uri, model);
      o
  }

  /** The record check runs before the topic check: a null record is reported
      as such whatever the topic, blank or null included. */
  lemma NullRecordWinsOverBadTopic<T>(
    client: KafkaRestClient<T>, platform: Platform, getPartitionKey: T -> Option<string>, topic: Option<string>)
    ensures var o := PostSingleRecordAsync(client, platform, getPartitionKey,
                       Some(PostSingleRecordRequest(topic, None)));
            o.response == Failure(ArgumentNull) && o.effects == []
  {
  }

  /** A null element anywhere in the batch is reported before the topic is looked at. */
  lemma NullElementWinsOverBadTopic<T>(
    client: KafkaRestClient<T>, platform: Platform, getPartitionKey: T -> Option<string>,
    topic: Option<string>, records: seq<Option<T>>, i: int)
    requires 0 <= i < |records| && records[i].None?
    ensures var o := PostMultipleRecordsAsync(client, platform, getPartitionKey,
                       Some(PostMultipleRecordsRequest(topic, Some(records))));
            o.response == Failure(ArgumentNull) && o.effects == []
  {
  }

  /** An empty batch is not rejected: with an acceptable topic it is serialized
      as an envelope with no entries and dispatched. */
  lemma EmptyBatchIsDispatched<T>(
    client: KafkaRestClient<T>, platform: Platform, getPartitionKey: T -> Option<string>, topic: Option<string>)
    requires Accepted(client.kafkaRestProxyUrl, platform, topic)
    ensures var o := PostMultipleRecordsAsync(client, platform, getPartitionKey,
                       Some(PostMultipleRecordsRequest(topic, Some([]))));
            Dispatched(client, platform, o, DestinationUriString(client.kafkaRestProxyUrl, topic.value), PostRecordsModel([]))
  {
  }

  /** A batch request whose destination was never set still has a null topic,
      so publishing it throws and calls nothing. */
  lemma {:induction false} UnsetDestinationFails<T>(
    client: KafkaRestClient<T>, platform: Platform, getPartitionKey: T -> Option<string>,
    ss: seq<PostMultipleRecordsRequests.Setter<T>>)
    requires forall i :: 0 <= i < |ss| ==> ss[i].SetRecords?
    ensures var o := PostMultipleRecordsAsync(client, platform, getPartitionKey,
                       Some(PostMultipleRecordsRequests.Chain(PostMultipleRecordsRequests.New(), ss)));
            o.response.Failure? && o.effects == []
  {
    PostMultipleRecordsRequests.ChainTopicIsLastWrite(PostMultipleRecordsRequests.New(), ss);
  }

  /** A topic set through `WithDestination(topic)` that is null, empty or all
      white space makes a request with a record throw `ArgumentException`,
      with no serialization and no send. */
  lemma BlankDestinationFails<T>(
    client: KafkaRestClient<T>, platform: Platform, getPartitionKey: T -> Option<string>,
    b: PostSingleRecordRequest<T>, topic: Option<string>, record: T)
    requires Blank(topic, platform.isWhiteSpace)
    ensures var o := PostSingleRecordAsync(client, platform, getPartitionKey,
                       Some(WithRecord(PostSingleRecordRequests.WithDestination(b, topic), Some(record))));
            o.response == Failure(ArgumentInvalid) && o.effects == []
  {
  }

  /** A destination the URI parser rejects makes the call throw
      `ArgumentException` with no effects, even with a valid record and topic. */
  lemma RejectedUriFails<T>(
    client: KafkaRestClient<T>, platform: Platform, getPartitionKey: T -> Option<string>,
    topic: string, record: T)
    requires !Blank(Some(topic), platform.isWhiteSpace)
    requires !platform.isAbsoluteUri(DestinationUriString(client.kafkaRestProxyUrl, topic))
    ensures var o := PostSingleRecordAsync(client, platform, getPartitionKey,
                       Some(PostSingleRecordRequest(Some(topic), Some(record))));
            o.response == Failure(ArgumentInvalid) && o.effects == []
  {
  }

  /** A serializer that returns null makes a valid request throw after its one
      serialization: the envelope was serialized, nothing was sent. */
  lemma NullBodyIsNeverSent<T>(
    client: KafkaRestClient<T>, platform: Platform, getPartitionKey: T -> Option<string>,
    topic: string, record: T)
    requires Accepted(client.kafkaRestProxyUrl, platform, Some(topic))
    requires platform.isRequestUri(DestinationUriString(client.kafkaRestProxyUrl, topic))
    requires client.serializer(PostRecordsModel([RecordModel(record, getPartitionKey(record))])).None?
    ensures var o := PostSingleRecordAsync(client, platform, getPartitionKey,
                       Some(PostSingleRecordRequest(Some(topic), Some(record))));
            && o.response == Failure(ArgumentNull)
            && o.effects == [Serialized(PostRecordsModel([RecordModel(record, getPartitionKey(record))]))]
  {
  }

  /** A destination that passes `Uri.TryCreate` but that the request
      constructor refuses (a non-http(s) scheme on older runtimes) makes a valid
      request throw `ArgumentException` after its one serialization, with
      nothing sent, whatever the serialization. */
  lemma RefusedRequestUriIsNeverSent<T>(
    client: KafkaRestClient<T>, platform: Platform, getPartitionKey: T -> Option<string>,
    topic: string, record: T)
    requires Accepted(client.kafkaRestProxyUrl, platform, Some(topic))
    requires !platform.isRequestUri(DestinationUriString(client.kafkaRestProxyUrl, topic))
    ensures var o := PostSingleRecordAsync(client, platform, getPartitionKey,
                       Some(PostSingleRecordRequest(Some(topic), Some(record))));
            && o.response == Failure(ArgumentInvalid)
            && o.effects == [Serialized(PostRecordsModel([RecordModel(record, getPartitionKey(record))]))]
  {
  }
}
