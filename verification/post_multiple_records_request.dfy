/** The fluent builder for a batch publish (`PostMultipleRecordsRequest<TRecord>`).
    Unlike the single-record builder it has no string overload of the
    destination setter. No setter checks its argument. */
module PostMultipleRecordsRequests {
  import opened Wrappers
  import opened Topics

  /** `records` is null or a sequence whose elements may themselves be null. */
  datatype PostMultipleRecordsRequest<T> = PostMultipleRecordsRequest(topic: Option<string>, records: Option<seq<Option<T>>>)

  /** `new PostMultipleRecordsRequest<T>()`: both auto-properties start out null. */
  function New<T>(): (b: PostMultipleRecordsRequest<T>)
    ensures b.topic.None? && b.records.None?
  {
    PostMultipleRecordsRequest(None, None)
  }

  /** `WithRecords(records)`: kept as given, a null sequence or null elements included. */
  function WithRecords<T>(b: PostMultipleRecordsRequest<T>, records: Option<seq<Option<T>>>): (b': PostMultipleRecordsRequest<T>)
    ensures b'.records == records
    ensures b'.topic == b.topic
  {
    b.(records := records)
  }

  /** `WithDestination<TTopic>()`: the topic becomes the marker's simple name. */
  function WithDestinationOf<T>(b: PostMultipleRecordsRequest<T>, marker: TopicMarker): (b': PostMultipleRecordsRequest<T>)
    ensures b'.topic == Some(marker.name)
    ensures b'.records == b.records
  {
    b.(topic := Some(marker.name))
  }

  /** One call in a fluent chain. */
  datatype Setter<T> =
    | SetRecords(records: Option<seq<Option<T>>>)
    | SetDestinationOf(marker: TopicMarker)

  function Apply<T>(b: PostMultipleRecordsRequest<T>, s: Setter<T>): PostMultipleRecordsRequest<T>
  {
    match s
    case SetRecords(rs) => WithRecords(b, rs)
    case SetDestinationOf(m) => WithDestinationOf(b, m)
  }

  /** `b.S0(..).S1(..)...`: the setters applied left to right. */
  function Chain<T>(b: PostMultipleRecordsRequest<T>, ss: seq<Setter<T>>): PostMultipleRecordsRequest<T>
    decreases |ss|
  {
    if |ss| == 0 then b else Apply(Chain(b, ss[..|ss| - 1]), ss[|ss| - 1])
  }

  /** Setter `i` is the last `WithDestination` in the chain. */
  ghost predicate LastTopicWrite<T>(ss: seq<Setter<T>>, i: int)
  {
    0 <= i < |ss| && ss[i].SetDestinationOf? && forall j :: i < j < |ss| ==> !ss[j].SetDestinationOf?
  }

  /** Setter `i` is the last `WithRecords` in the chain. */
  ghost predicate LastRecordsWrite<T>(ss: seq<Setter<T>>, i: int)
  {
    0 <= i < |ss| && ss[i].SetRecords? && forall j :: i < j < |ss| ==> !ss[j].SetRecords?
  }

  /** Last write wins for the topic. */
  lemma {:induction false} ChainTopicIsLastWrite<T>(b: PostMultipleRecordsRequest<T>, ss: seq<Setter<T>>)
    ensures (forall i :: 0 <= i < |ss| ==> !ss[i].SetDestinationOf?) ==> Chain(b, ss).topic == b.topic
    ensures forall i :: LastTopicWrite(ss, i) ==> Chain(b, ss).topic == Some(ss[i].marker.name)
    decreases |ss|
  {
    if |ss| > 0 {
      var n := |ss| - 1;
      var prefix := ss[..n];
      ChainTopicIsLastWrite(b, prefix);
      if ss[n].SetDestinationOf? {
        assert Chain(b, ss) == Apply(Chain(b, prefix), ss[n]);
        forall i | LastTopicWrite(ss, i)
          ensures i == n
        {
        }
      } else {
        assert Chain(b, ss).topic == Chain(b, prefix).topic;
        forall i | LastTopicWrite(ss, i)
          ensures LastTopicWrite(prefix, i)
        {
          forall j | i < j < n
            ensures !prefix[j].SetDestinationOf?
          {
            assert prefix[j] == ss[j];
          }
        }
        forall i | 0 <= i < n && ss[i].SetDestinationOf?
          ensures prefix[i].SetDestinationOf?
        {
        }
      }
    }
  }

  /** Last write wins for the records: a later `WithRecords` replaces, never
      appends to, an earlier one. */
  lemma {:induction false} ChainRecordsIsLastWrite<T>(b: PostMultipleRecordsRequest<T>, ss: seq<Setter<T>>)
    ensures (forall i :: 0 <= i < |ss| ==> !ss[i].SetRecords?) ==> Chain(b, ss).records == b.records
    ensures forall i :: LastRecordsWrite(ss, i) ==> Chain(b, ss).records == ss[i].records
    decreases |ss|
  {
    if |ss| > 0 {
      var n := |ss| - 1;
      var prefix := ss[..n];
      ChainRecordsIsLastWrite(b, prefix);
      if ss[n].SetRecords? {
        assert Chain(b, ss) == Apply(Chain(b, prefix), ss[n]);
        forall i | LastRecordsWrite(ss, i)
          ensures i == n
        {
        }
      } else {
        assert Chain(b, ss).records == Chain(b, prefix).records;
        forall i | LastRecordsWrite(ss, i)
          ensures LastRecordsWrite(prefix, i)
        {
          forall j | i < j < n
            ensures !prefix[j].SetRecords?
          {
            assert prefix[j] == ss[j];
          }
        }
        forall i | 0 <= i < n && ss[i].SetRecords?
          ensures prefix[i].SetRecords?
        {
        }
      }
    }
  }

  /** The two setters touch disjoint properties: `WithRecords` then
      `WithDestination` gives the same request as the reverse order. */
  lemma RecordsAndDestinationCommute<T>(b: PostMultipleRecordsRequest<T>, records: Option<seq<Option<T>>>, marker: TopicMarker)
    ensures WithDestinationOf(WithRecords(b, records), marker) == WithRecords(WithDestinationOf(b, marker), records)
  {
  }
}
