/** The fluent builder for a single-record publish (`PostSingleRecordRequest<TRecord>`).
    Each setter overwrites one property and returns the builder, so a chain of
    calls is a sequence of state updates. No setter checks its argument. */
module PostSingleRecordRequests {
  import opened Wrappers
  import opened Topics

  datatype PostSingleRecordRequest<T> = PostSingleRecordRequest(topic: Option<string>, record: Option<T>)

  /** `new PostSingleRecordRequest<T>()`: both auto-properties start out null. */
  function New<T>(): (b: PostSingleRecordRequest<T>)
    ensures b.topic.None? && b.record.None?
  {
    PostSingleRecordRequest(None, None)
  }

  /** `WithRecord(record)`: a null record is accepted. */
  function WithRecord<T>(b: PostSingleRecordRequest<T>, record: Option<T>): (b': PostSingleRecordRequest<T>)
    ensures b'.record == record
    ensures b'.topic == b.topic
  {
    b.(record := record)
  }

  /** `WithDestination<TTopic>()`: the topic becomes the marker's simple name. */
  function WithDestinationOf<T>(b: PostSingleRecordRequest<T>, marker: TopicMarker): (b': PostSingleRecordRequest<T>)
    ensures b'.topic == Some(marker.name)
    ensures b'.record == b.record
  {
    b.(topic := Some(marker.name))
  }

  /** `WithDestination(topic)`: stored verbatim, null and blank included. */
  function WithDestination<T>(b: PostSingleRecordRequest<T>, topic: Option<string>): (b': PostSingleRecordRequest<T>)
    ensures b'.topic == topic
    ensures b'.record == b.record
  {
    b.(topic := topic)
  }

  /** One call in a fluent chain. */
  datatype Setter<T> =
    | SetRecord(record: Option<T>)
    | SetDestinationOf(marker: TopicMarker)
    | SetDestination(topic: Option<string>)
  {
    predicate WritesTopic()
    {
      !SetRecord?
    }

    function TopicWritten(): Option<string>
      requires WritesTopic()
    {
      if SetDestination? then topic else Some(marker.name)
    }
  }

  function Apply<T>(b: PostSingleRecordRequest<T>, s: Setter<T>): PostSingleRecordRequest<T>
  {
    match s
    case SetRecord(r) => WithRecord(b, r)
    case SetDestinationOf(m) => WithDestinationOf(b, m)
    case SetDestination(t) => WithDestination(b, t)
  }

  /** `b.S0(..).S1(..)...`: the setters applied left to right. */
  function Chain<T>(b: PostSingleRecordRequest<T>, ss: seq<Setter<T>>): PostSingleRecordRequest<T>
    decreases |ss|
  {
    if |ss| == 0 then b else Apply(Chain(b, ss[..|ss| - 1]), ss[|ss| - 1])
  }

  /** Setter `i` is the last one in the chain that writes the topic. */
  ghost predicate LastTopicWrite<T>(ss: seq<Setter<T>>, i: int)
  {
    0 <= i < |ss| && ss[i].WritesTopic() && forall j :: i < j < |ss| ==> !ss[j].WritesTopic()
  }

  /** Setter `i` is the last `WithRecord` in the chain. */
  ghost predicate LastRecordWrite<T>(ss: seq<Setter<T>>, i: int)
  {
    0 <= i < |ss| && ss[i].SetRecord? && forall j :: i < j < |ss| ==> !ss[j].SetRecord?
  }

  /** Last write wins for the topic: a chain leaves the topic that its last
      topic-writing call set, or the initial one if no call writes it. */
  lemma {:induction false} ChainTopicIsLastWrite<T>(b: PostSingleRecordRequest<T>, ss: seq<Setter<T>>)
    ensures (forall i :: 0 <= i < |ss| ==> !ss[i].WritesTopic()) ==> Chain(b, ss).topic == b.topic
    ensures forall i :: LastTopicWrite(ss, i) ==> Chain(b, ss).topic == ss[i].TopicWritten()
    decreases |ss|
  {
    if |ss| > 0 {
      var n := |ss| - 1;
      var prefix := ss[..n];
      ChainTopicIsLastWrite(b, prefix);
      if ss[n].WritesTopic() {
        assert Chain(b, ss).topic == ss[n].TopicWritten() by {
          assert Chain(b, ss) == Apply(Chain(b, prefix), ss[n]);
        }
        forall i | LastTopicWrite(ss, i)
          ensures i == n
        {
        }
      } else {
        assert Chain(b, ss).topic == Chain(b, prefix).topic;
        forall i | LastTopicWrite(ss, i)
          ensures LastTopicWrite(prefix, i)
        {
          forall j | i < j < n
            ensures !prefix[j].WritesTopic()
          {
            assert prefix[j] == ss[j];
          }
        }
        forall i | 0 <= i < n && ss[i].WritesTopic()
          ensures prefix[i].WritesTopic()
        {
        }
      }
    }
  }

  /** Last write wins for the record, and the topic setters never touch it. */
  lemma {:induction false} ChainRecordIsLastWrite<T>(b: PostSingleRecordRequest<T>, ss: seq<Setter<T>>)
    ensures (forall i :: 0 <= i < |ss| ==> !ss[i].SetRecord?) ==> Chain(b, ss).record == b.record
    ensures forall i :: LastRecordWrite(ss, i) ==> Chain(b, ss).record == ss[i].record
    decreases |ss|
  {
    if |ss| > 0 {
      var n := |ss| - 1;
      var prefix := ss[..n];
      ChainRecordIsLastWrite(b, prefix);
      if ss[n].SetRecord? {
        forall i | LastRecordWrite(ss, i)
          ensures i == n
        {
        }
      } else {
        assert Chain(b, ss).record == Chain(b, prefix).record;
        forall i | LastRecordWrite(ss, i)
          ensures LastRecordWrite(prefix, i)
        {
          forall j | i < j < n
            ensures !prefix[j].SetRecord?
          {
            assert prefix[j] == ss[j];
          }
        }
        forall i | 0 <= i < n && ss[i].SetRecord?
          ensures prefix[i].SetRecord?
        {
        }
      }
    }
  }

  /** The record and topic setters touch disjoint properties, so their order
      in a chain does not matter. */
  lemma RecordAndDestinationCommute<T>(b: PostSingleRecordRequest<T>, record: Option<T>, topic: Option<string>)
    ensures WithRecord(WithDestination(b, topic), record) == WithDestination(WithRecord(b, record), topic)
  {
  }
}
