# Kafka REST proxy client: the publish pipeline

A Dafny model of the publishing core of a .NET client for a Kafka REST proxy.
A caller builds a request with a fluent builder (one record, or a batch of
records, and a destination topic) and hands it to `KafkaRestClient`, which

1. checks the request in a fixed order, throwing `ArgumentNullException` or
   `ArgumentException` at the first failed check;
2. composes the destination `{kafkaRestProxyUrl}/topics/{topic}` and asks the
   URI parser whether it is an absolute URI;
3. wraps the records in the envelope `{"records": [{"value": ..., "key": ...}, ...]}`,
   each record paired with its `GetPartitionKey()`, in input order;
4. serializes the envelope once and sends it once, returning the rest client's
   response as it came back.

Modules, one per source file plus small helpers:

| file | module | models |
|---|---|---|
| `wrappers.dfy` | `Wrappers` | `Option` for null-able references, `Result` for return-or-throw |
| `strings.dfy` | `Strings` | `string.IsNullOrWhiteSpace` over an abstract white-space test |
| `topics.dfy` | `Topics` | topic marker types, known by their simple name |
| `wire.dfy` | `Wire` | the property names and nesting fixed by the `JsonProperty` attributes (`RecordModel.cs` lines 13-17, `PostRecordsModel.cs` lines 18-19); the publish functions do not use it |
| `record_model.dfy` | `RecordModels` | `RecordModel<T>` |
| `post_records_model.dfy` | `PostRecordsModels` | `PostRecordsModel<T>`, the envelope |
| `post_single_record_request.dfy` | `PostSingleRecordRequests` | `PostSingleRecordRequest<TRecord>` |
| `post_multiple_records_request.dfy` | `PostMultipleRecordsRequests` | `PostMultipleRecordsRequest<TRecord>` |
| `kafka_rest_client.dfy` | `KafkaRestClients` | `KafkaRestClient`: validation, destination, envelopes, publish |
| `scenarios.dfy` | `Scenarios` | the unit tests' `Mob` fixture as a concrete record type |

How the model stands in for what it cannot see:

- C# `null` is `None` of `Option`: the request, its record, its records
  sequence, each element of that sequence, its topic, the base URL, a
  partition key and the serializer's result.
- A publish call returns an `Outcome`: the response or the exception kind
  (`ArgumentNull`, `ArgumentInvalid`), and the list of collaborator calls made,
  `Serialized(envelope)` and `Sent(uri, body)`. "No serializer or transport
  call when a check fails", "one serialization, then one send" and "a
  refused request URI or a null serialization throws before anything is
  sent" are statements about that list.
- The serializer (`ISerializer.Serialize`) and the rest client
  (`IRestClient.SendAsync`) are function-valued fields of the client;
  `GetPartitionKey` is a function on records; `Char.IsWhiteSpace` and
  `Uri.TryCreate(..., UriKind.Absolute, ...)` (the private `IsValidUri`) and
  the URI check of the `HttpRequestMessage` constructor are the fields of
  `Platform`. That constructor refuses every scheme but http and https on .NET
  Framework and .NET Core up to 3.1, and nothing on later runtimes, so it is a
  parameter rather than a fixed rule. They are total functions: the serializer may
  return null and `GetPartitionKey` may return a null key, but neither can
  throw (see "Left out"). Nothing else is assumed about them.
- The builders' setters mutate the builder and return it; here they are pure
  updates returning the new state, and a fluent chain is `Chain`, the setters
  applied left to right.

A fresh builder's topic is `null` (the C# default of an auto-property). The
exceptions carry no parameter name, though the unit tests look for one in the
message (`KafkaRestClientUnitTests.cs` lines 152 and 183). `KafkaRestClient`
has no `Dispose`, though the tests' tear-down calls one
(`KafkaRestClientUnitTests.cs` line 51).

The readers `RecordFromWire`, `RecordsFromWire` and `ModelFromWire` are the
model's own inverses of the wire shape, there to show that the shape loses
nothing. The client never reads an envelope back, and Newtonsoft.Json could
not construct a `PostRecordsModel` anyway: it has two public constructors and
neither a default one nor a `[JsonConstructor]` attribute.

## Model

| member | source | states |
|---|---|---|
| Strings.AllWhiteSpace | Source/KafkaRestClient/KafkaRestClient.cs:41 | true exactly when every character of the string is white space (so also for the empty string) |
| Strings.IsNullOrWhiteSpace | Source/KafkaRestClient/KafkaRestClient.cs:77 | true exactly for null, empty and all-white-space topics; false implies a non-null, non-empty topic |
| RecordModels.KeyToWire | Source/KafkaRestClient/Models/RecordModel.cs:16-17 | a null key goes on the wire as JSON null and any other key as that string |
| RecordModels.RecordToWire | Source/KafkaRestClient/Models/RecordModel.cs:13-17 | an entry goes on the wire as an object with exactly two properties, `value` holding the record and `key` holding the key |
| RecordModels.RecordFromWire | Source/KafkaRestClient/Models/RecordModel.cs:13-17 | the model's own reader: anything it reads back as an entry is exactly the wire shape of that entry |
| RecordModels.RecordWireRoundTrip | Source/KafkaRestClient/Models/RecordModel.cs:7-17 | the wire shape loses nothing: the constructor's value and key come back unchanged through the model's reader, whatever the key, null and empty included |
| RecordModels.RecordToWireInjective | Source/KafkaRestClient/Models/RecordModel.cs:7-17 | two entries with the same wire shape have the same value and key |
| PostRecordsModels.FromRecord | Source/KafkaRestClient/Models/PostRecordsModel.cs:8-11 | the single-entry constructor yields exactly one entry, the given one unchanged |
| PostRecordsModels.RecordsToWire | Source/KafkaRestClient/Models/PostRecordsModel.cs:18-19 | the `records` array has one element per entry, element i being the wire shape of entry i |
| PostRecordsModels.RecordsFromWire | Source/KafkaRestClient/Models/PostRecordsModel.cs:18-19 | the model's own reader for the `records` array: an array it accepts yields as many entries as it has elements |
| PostRecordsModels.ModelToWire | Source/KafkaRestClient/Models/PostRecordsModel.cs:18-19 | the envelope is an object with the single property `records`, an array as long as the entry sequence |
| PostRecordsModels.RecordsWireRoundTrip | Source/KafkaRestClient/Models/PostRecordsModel.cs:13-19 | the wire array loses nothing: through the model's reader a sequence of entries comes back with the same length, order and elements |
| PostRecordsModels.RecordsFromWireInverse | Source/KafkaRestClient/Models/PostRecordsModel.cs:18-19 | the model's reader accepts only the wire array of a sequence of entries, and reads it back as that sequence |
| PostRecordsModels.ModelFromWire | Source/KafkaRestClient/Models/PostRecordsModel.cs:18-19 | the model's own reader for the envelope: it accepts only an object whose single property is the `records` array, with one entry per element |
| PostRecordsModels.ModelWireRoundTrip | Source/KafkaRestClient/Models/PostRecordsModel.cs:13-19 | the envelope's wire shape loses nothing: every envelope, empty ones included, comes back unchanged through the model's reader |
| PostRecordsModels.ModelFromWireInverse | Source/KafkaRestClient/Models/PostRecordsModel.cs:18-19 | anything the model's reader accepts as an envelope is exactly the wire shape of that envelope |
| PostSingleRecordRequests.New | Source/KafkaRestClient/Models/PostSingleRecordRequest.cs:8-10 | a fresh builder has a null topic and a null record |
| PostSingleRecordRequests.WithRecord | Source/KafkaRestClient/Models/PostSingleRecordRequest.cs:12-16 | sets the record to the argument, null accepted, and leaves the topic as it was; never fails |
| PostSingleRecordRequests.WithDestinationOf | Source/KafkaRestClient/Models/PostSingleRecordRequest.cs:18-22 | sets the topic to the marker's simple name and leaves the record as it was |
| PostSingleRecordRequests.WithDestination | Source/KafkaRestClient/Models/PostSingleRecordRequest.cs:24-28 | sets the topic verbatim, null and blank included, and leaves the record as it was |
| PostSingleRecordRequests.ChainTopicIsLastWrite | Source/KafkaRestClient/Models/PostSingleRecordRequest.cs:18-28 | after any chain of setters the topic is the one written by the last topic setter of either overload, or the initial one if there is none |
| PostSingleRecordRequests.ChainRecordIsLastWrite | Source/KafkaRestClient/Models/PostSingleRecordRequest.cs:12-16 | after any chain of setters the record is the one written by the last `WithRecord`, or the initial one if there is none |
| PostSingleRecordRequests.RecordAndDestinationCommute | Source/KafkaRestClient/Models/PostSingleRecordRequest.cs:12-28 | setting the record then the topic gives the same request as the reverse order |
| PostMultipleRecordsRequests.New | Source/KafkaRestClient/Models/PostMultipleRecordsRequest.cs:9-11 | a fresh builder has a null topic and a null records sequence |
| PostMultipleRecordsRequests.WithRecords | Source/KafkaRestClient/Models/PostMultipleRecordsRequest.cs:13-17 | sets the records to the argument as given, null or with null elements, and leaves the topic as it was |
| PostMultipleRecordsRequests.WithDestinationOf | Source/KafkaRestClient/Models/PostMultipleRecordsRequest.cs:19-23 | sets the topic to the marker's simple name and leaves the records as they were |
| PostMultipleRecordsRequests.ChainTopicIsLastWrite | Source/KafkaRestClient/Models/PostMultipleRecordsRequest.cs:19-23 | after any chain of setters the topic is the last marker's name, or the initial one if no destination was set |
| PostMultipleRecordsRequests.ChainRecordsIsLastWrite | Source/KafkaRestClient/Models/PostMultipleRecordsRequest.cs:13-17 | after any chain of setters the records are exactly the last `WithRecords` argument, never an accumulation |
| PostMultipleRecordsRequests.RecordsAndDestinationCommute | Source/KafkaRestClient.UnitTests/KafkaRestClientUnitTests.cs:204-206 | `WithRecords` then `WithDestination` gives the same request as the reverse order |
| KafkaRestClients.DestinationUriString | Source/KafkaRestClient/KafkaRestClient.cs:45 | the destination is the base URL (empty when null), then `/topics/`, then the topic, each recoverable from its position |
| KafkaRestClients.DestinationDeterminesTopic | Source/KafkaRestClient/KafkaRestClient.cs:81 | for one base URL, equal destinations mean equal topics |
| KafkaRestClients.AnyNull | Source/KafkaRestClient/KafkaRestClient.cs:74-75 | true exactly when some element of the records sequence is null |
| KafkaRestClients.Present | Source/KafkaRestClient/KafkaRestClient.cs:87 | a sequence with no null element gives the same records, in the same order |
| KafkaRestClients.SelectRecordModels | Source/KafkaRestClient/KafkaRestClient.cs:111 | one entry per record, entry i pairing record i with its own partition key |
| KafkaRestClients.CreateMessageWithSingleRecord | Source/KafkaRestClient/KafkaRestClient.cs:100-105 | the envelope has exactly one entry: the record and its partition key |
| KafkaRestClients.CreateMessageWithMultipleRecords | Source/KafkaRestClient/KafkaRestClient.cs:107-112 | the envelope has as many entries as records; entry i holds record i and its partition key |
| KafkaRestClients.ValuesOfBatchMessage | Source/KafkaRestClient/KafkaRestClient.cs:107-112 | dropping the keys from a batch envelope gives back the input sequence |
| KafkaRestClients.BatchOfOneIsSingle | Source/KafkaRestClient/KafkaRestClient.cs:100-112 | a batch of one builds the same envelope as the single-record path |
| KafkaRestClients.SelectDistributesOverConcat | Source/KafkaRestClient/KafkaRestClient.cs:111 | the entries of a concatenation are the concatenation of the entries: each entry depends on its own record only |
| KafkaRestClients.ValidateSingle | Source/KafkaRestClient/KafkaRestClient.cs:35-49 | null-argument exactly when the request or its record is null (whatever the topic); argument error exactly when both are present but the topic is null, empty or white space or the destination is not absolute; otherwise the record and the composed destination |
| KafkaRestClients.ValidateMultiple | Source/KafkaRestClient/KafkaRestClient.cs:68-85 | null-argument exactly when the request, its sequence or any element is null (whatever the topic); argument error exactly when the payload passes but the topic or destination is refused; an empty sequence passes; otherwise the records in order and the destination |
| KafkaRestClients.PostSingleRecordAsync | Source/KafkaRestClient/KafkaRestClient.cs:31-62 | no collaborator call exactly when a check fails, and then it throws the check's error kind; otherwise one serialization of the one-entry envelope; then a destination the request constructor refuses throws an argument error and a null serialization a null-argument error, both with nothing sent; otherwise the body is sent once to `{url}/topics/{topic}` and the rest client's response is returned unchanged |
| KafkaRestClients.PostMultipleRecordsAsync | Source/KafkaRestClient/KafkaRestClient.cs:64-98 | no collaborator call exactly when a check fails, and then it throws the check's error kind; otherwise one serialization of an envelope holding all records in input order with their keys; then a refused request URI or a null serialization throws with nothing sent; otherwise the body goes out in a single send for the whole batch and the response is returned unchanged |
| KafkaRestClients.NullRecordWinsOverBadTopic | Source/KafkaRestClient/KafkaRestClient.cs:38-42 | a null record is reported as a null argument even when the topic is null or blank, with no calls |
| KafkaRestClients.NullElementWinsOverBadTopic | Source/KafkaRestClient/KafkaRestClient.cs:74-78 | a null element anywhere in a batch is reported as a null argument whatever the topic, with no calls |
| KafkaRestClients.EmptyBatchIsDispatched | Source/KafkaRestClient/KafkaRestClient.cs:71-97 | an empty batch to an accepted topic passes the checks and is serialized, as an envelope with no entries, then sent once unless the request URI is refused or the serialization is null |
| KafkaRestClients.UnsetDestinationFails | Source/KafkaRestClient/Models/PostMultipleRecordsRequest.cs:9 | a batch request built only with `WithRecords` keeps a null topic, so publishing it throws and calls nothing |
| KafkaRestClients.BlankDestinationFails | Source/KafkaRestClient/KafkaRestClient.cs:41-42 | a null, empty or white-space topic set with `WithDestination` makes a request with a record throw an argument error, with no calls |
| KafkaRestClients.RejectedUriFails | Source/KafkaRestClient/KafkaRestClient.cs:44-49 | a destination the URI parser rejects makes the call throw an argument error, with no calls |
| KafkaRestClients.NullBodyIsNeverSent | Source/KafkaRestClient/KafkaRestClient.cs:51-61 | a valid request to a destination the request constructor accepts, whose serialization is null, throws a null-argument error (from `StringContent`) after its one serialization, and nothing is sent |
| KafkaRestClients.RefusedRequestUriIsNeverSent | Source/KafkaRestClient/KafkaRestClient.cs:51-53 | a destination that passes the absolute-URI check but that the `HttpRequestMessage` constructor refuses makes a valid request throw an argument error after its one serialization, whatever that serialization, and nothing is sent |
| Scenarios.GetPartitionKey | Source/KafkaRestClient.UnitTests/Models/Mob.cs:11-14 | a mob's key is the name of its type, never null, and each type has its own key |
| Scenarios.MobsTopicIsAccepted | Source/KafkaRestClient.UnitTests/KafkaRestClientUnitTests.cs:67-69 | the `MobsTopic` marker passes the topic check and yields `{url}/topics/MobsTopic` |
| Scenarios.SingleRaidBossIsSentOnce | Source/KafkaRestClient.UnitTests/KafkaRestClientUnitTests.cs:55-94 | one raid boss is serialized once as a one-entry envelope keyed `RaidBoss` and sent once to the `MobsTopic` destination |
| Scenarios.ErrorStatusIsPassedThrough | Source/KafkaRestClient.UnitTests/KafkaRestClientUnitTests.cs:96-138 | a 500 response from the rest client is returned as it is, not turned into an error |
| Scenarios.BlankDestinationsAreRefused | Source/KafkaRestClient.UnitTests/KafkaRestClientUnitTests.cs:163-192 | null, `""` and `"     "` destinations throw an argument error with no serialization and no send |
| Scenarios.ThreeRaidBossesAreSentTogether | Source/KafkaRestClient.UnitTests/KafkaRestClientUnitTests.cs:194-225 | three mobs go out as one envelope of three entries in input order, in a single send |

## Left out

- HTTP details: the POST method, UTF-8 and the content-type header are not modelled; the send is the event `Sent(uri, body)`, with the URI as the composed string rather than the parsed `Uri` object. Of `HttpRequestMessage` only its URI check is modelled, and of `StringContent` only its null-content check.
- KafkaRestClients.PostSingleRecordAsync, KafkaRestClients.PostMultipleRecordsAsync: an empty or malformed configured content type makes `StringContent` throw (`ArgumentException`, `FormatException`) after the serialization and before the send. This is not modelled; a publish call whose request URI is accepted and whose serialization is not null is always sent here.
- Collaborator failures: the serializer, the rest client and `GetPartitionKey` are total functions here, so their exceptions (serialization errors, network failures, a key function that throws) are not modelled. A key function that throws would make the call throw after validation, before any collaborator call. The code does not catch any of them, so they would reach the caller unchanged.
- The JSON text: `JsonSerializer` (Newtonsoft.Json with `TypeNameHandling.Auto`) and `Deserialize` are not part of this model; only the property names and nesting of the envelope are.
- `Uri.TryCreate` and `Char.IsWhiteSpace` are abstract predicates; no URI syntax and no Unicode table is modelled.
- Asynchrony: `Task` results are plain values; the code has no concurrency logic of its own.
- Exception messages and parameter names: no exception carries a parameter name, and every one except the batch URI check (`KafkaRestClient.cs` line 84, which passes a message) is parameterless; only the two exception types are modelled.
- Disposal: `KafkaRestClient` has no `Dispose`; there is nothing to model.
- Lazy sequences: `Records` is an `IEnumerable` enumerated twice (by `Any`, then by `Select`); the model treats it as a fixed sequence, so a source yielding different elements on each enumeration is not covered.
- Value-type records: for a struct `TRecord` the null checks can never fire; the model treats records as references that may be null.
- Topic marker classes and `IKafkaRestClient`/`ISerializer` are interfaces or empty classes with no behaviour; a marker is represented by its simple name.
