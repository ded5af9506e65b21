/** The unit tests' fixture as a concrete record type: a `Mob` whose partition
    key is the name of its `MobType`, published to the topic named by a marker
    class. */
module Scenarios {
  import opened Wrappers
  import opened Topics
  import opened RecordModels
  import opened PostRecordsModels
  import PostSingleRecordRequests
  import PostMultipleRecordsRequests
  import opened KafkaRestClients

  datatype MobType = Monster | Minion | RaidBoss

  datatype Mob = Mob(name: string, mobType: MobType)

  /** `Mob.GetPartitionKey`: the enum member's name (`MobType.ToString()`). */
  function GetPartitionKey(m: Mob): (key: Option<string>)
    ensures m.mobType == RaidBoss <==> key == Some("RaidBoss")
    ensures m.mobType == Monster <==> key == Some("Monster")
    ensures m.mobType == Minion <==> key == Some("Minion")
  {
    match m.mobType
    case Monster => Some("Monster")
    case Minion => Some("Minion")
    case RaidBoss => Some("RaidBoss")
  }

  const MobsTopic: TopicMarker := TopicMarker("MobsTopic")

  /** The `MobsTopic` marker names an acceptable destination under any base
      URL the URI parser accepts, and that destination is `{url}/topics/MobsTopic`. */
  lemma MobsTopicIsAccepted(client: KafkaRestClient<Mob>, platform: Platform)
    requires client.kafkaRestProxyUrl.Some?
    requires platform.isAbsoluteUri(client.kafkaRestProxyUrl.value + "/topics/MobsTopic")
    requires !platform.isWhiteSpace('M')
    ensures DestinationUriString(client.kafkaRestProxyUrl, MobsTopic.name) == client.kafkaRestProxyUrl.value + "/topics/MobsTopic"
    ensures Accepted(client.kafkaRestProxyUrl, platform, Some(MobsTopic.name))
  {
    var url := client.kafkaRestProxyUrl.value;
    calc {
      DestinationUriString(client.kafkaRestProxyUrl, MobsTopic.name);
      (url + TopicsSegment) + "MobsTopic";
      { assert TopicsSegment + "MobsTopic" == "/topics/MobsTopic"; }
      url + "/topics/MobsTopic";
    }
    assert MobsTopic.name[0] == 'M';
  }

  /** One raid boss, built with `WithDestination<MobsTopic>().WithRecord(record)`:
      one serialization of a one-entry envelope keyed "RaidBoss", then one send
      to `{url}/topics/MobsTopic`, whose response is returned. */
  lemma SingleRaidBossIsSentOnce(client: KafkaRestClient<Mob>, platform: Platform)
    requires client.kafkaRestProxyUrl.Some?
    requires platform.isAbsoluteUri(client.kafkaRestProxyUrl.value + "/topics/MobsTopic")
    requires !platform.isWhiteSpace('M')
    requires platform.isRequestUri(client.kafkaRestProxyUrl.value + "/topics/MobsTopic")
    requires forall m :: client.serializer(m).Some?
    ensures
      var record := Mob("Scarlet van Halisha", RaidBoss);
      var request := PostSingleRecordRequests.WithRecord(
        PostSingleRecordRequests.WithDestinationOf(PostSingleRecordRequests.New(), MobsTopic), Some(record));
      var model := PostRecordsModel([RecordModel(record, Some("RaidBoss"))]);
      var uri := client.kafkaRestProxyUrl.value + "/topics/MobsTopic";
      var o := PostSingleRecordAsync(client, platform, GetPartitionKey, Some(request));
      && o.effects == [Serialized(model), Sent(uri, client.serializer(model).value)]
      && o.response == Success(client.restClient(uri, client.serializer(model).value))
  {
    MobsTopicIsAccepted(client, platform);
  }

  /** A 500 from the rest client is handed back as it is: the publisher itself
      does not turn an error status into a failure. */
  lemma ErrorStatusIsPassedThrough(client: KafkaRestClient<Mob>, platform: Platform, record: Mob)
    requires client.kafkaRestProxyUrl.Some?
    requires platform.isAbsoluteUri(client.kafkaRestProxyUrl.value + "/topics/MobsTopic")
    requires !platform.isWhiteSpace('M')
    requires platform.isRequestUri(client.kafkaRestProxyUrl.value + "/topics/MobsTopic")
    requires forall m :: client.serializer(m).Some?
    requires forall uri, body :: client.restClient(uri, body) == HttpResponse(500, "")
    ensures PostSingleRecordAsync(client, platform, GetPartitionKey,
              Some(PostSingleRecordRequests.PostSingleRecordRequest(Some("MobsTopic"), Some(record)))).response
            == Success(HttpResponse(500, ""))
  {
    MobsTopicIsAccepted(client, platform);
  }

  /** Null, empty and all-blank destinations are refused before any call. */
  lemma BlankDestinationsAreRefused(client: KafkaRestClient<Mob>, platform: Platform, topic: Option<string>)
    requires platform.isWhiteSpace(' ')
    requires topic == None || topic == Some("") || topic == Some("     ")
    ensures
      var request := PostSingleRecordRequests.WithRecord(
        PostSingleRecordRequests.WithDestination(PostSingleRecordRequests.New(), topic),
        Some(Mob("Lidia von Hellman", Monster)));
      var o := PostSingleRecordAsync(client, platform, GetPartitionKey, Some(request));
      o.response == Failure(ArgumentInvalid) && o.effects == []
  {
  }

  /** Three raid bosses, built with `WithRecords(records).WithDestination<MobsTopic>()`:
      one envelope with three entries in input order, one send. */
  lemma ThreeRaidBossesAreSentTogether(client: KafkaRestClient<Mob>, platform: Platform)
    requires client.kafkaRestProxyUrl.Some?
    requires platform.isAbsoluteUri(client.kafkaRestProxyUrl.value + "/topics/MobsTopic")
    requires !platform.isWhiteSpace('M')
    requires platform.isRequestUri(client.kafkaRestProxyUrl.value + "/topics/MobsTopic")
    requires forall m :: client.serializer(m).Some?
    ensures
      var records := [Mob("Istina", RaidBoss), Mob("Scarlet van Halisha", RaidBoss), Mob("Lidia von Hellman", RaidBoss)];
      var request := PostMultipleRecordsRequests.WithDestinationOf(
        PostMultipleRecordsRequests.WithRecords(PostMultipleRecordsRequests.New(),
          Some([Some(records[0]), Some(records[1]), Some(records[2])])), MobsTopic);
      var model := PostRecordsModel([RecordModel(records[0], Some("RaidBoss")), RecordModel(records[1], Some("RaidBoss")),
                                     RecordModel(records[2], Some("RaidBoss"))]);
      var uri := client.kafkaRestProxyUrl.value + "/topics/MobsTopic";
      var o := PostMultipleRecordsAsync(client, platform, GetPartitionKey, Some(request));
      && o.effects == [Serialized(model), Sent(uri, client.serializer(model).value)]
      && o.response == Success(client.restClient(uri, client.serializer(model).value))
  {
    MobsTopicIsAccepted(client, platform);
    var records := [Mob("Istina", RaidBoss), Mob("Scarlet van Halisha", RaidBoss), Mob("Lidia von Hellman", RaidBoss)];
    var rs := [Some(records[0]), Some(records[1]), Some(records[2])];
    var request := PostMultipleRecordsRequests.PostMultipleRecordsRequest(Some(MobsTopic.name), Some(rs));
    var uri := client.kafkaRestProxyUrl.value + "/topics/MobsTopic";
    var validated := ValidateMultiple(client, platform, Some(request));
    assert validated.Success? && validated.value.1 == uri;
    assert validated.value.0 == records;
    var model := CreateMessageWithMultipleRecords(GetPartitionKey, records);
    assert model == PostRecordsModel([RecordModel(records[0], Some("RaidBoss")), RecordModel(records[1], Some("RaidBoss")),
                                      RecordModel(records[2], Some("RaidBoss"))]);
  }
}
