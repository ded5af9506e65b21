/** The publish envelope (`PostRecordsModel<T>`): `{"records": [ ... ]}`. */
module PostRecordsModels {
  import opened Wrappers
  import opened Wire
  import opened RecordModels

  /** The sequence constructor `PostRecordsModel(records)` is the datatype
      constructor: the entries are stored as given, in the given order, and an
      empty sequence is accepted. */
  datatype PostRecordsModel<T> = PostRecordsModel(records: seq<RecordModel<T>>)

  const RecordsProperty: string := "records"

  /** The single-entry constructor: a one-element list holding the entry. */
  function FromRecord<T>(recordModel: RecordModel<T>): (m: PostRecordsModel<T>)
    ensures |m.records| == 1
    ensures m.records[0] == recordModel
  {
    PostRecordsModel([recordModel])
  }

  /** The entries in wire shape, one object per entry, in order. */
  function RecordsToWire<T>(rs: seq<RecordModel<T>>): (js: seq<Json<T>>)
    ensures |js| == |rs|
    ensures forall i :: 0 <= i < |rs| ==> js[i] == RecordToWire(rs[i])
  {
    if |rs| == 0 then []
    else [RecordToWire(rs[0])] + RecordsToWire(rs[1..])
  }

  /** The model's own inverse of `RecordsToWire`; one malformed entry rejects
      the whole array. */
  function RecordsFromWire<T>(js: seq<Json<T>>): (r: Option<seq<RecordModel<T>>>)
    ensures r.Some? ==> |r.value| == |js|
  {
    if |js| == 0 then Some([])
    else
      match RecordFromWire(js[0])
      case None => None
      case Some(first) =>
        match RecordsFromWire(js[1..])
        case None => None
        case Some(rest) => Some([first] + rest)
  }

  /** The envelope in wire shape: a single `records` property holding the array. */
  function ModelToWire<T>(m: PostRecordsModel<T>): (j: Json<T>)
    ensures j.Obj? && |j.members| == 1 && j.members[0].name == RecordsProperty
    ensures j.members[0].value.Arr? && |j.members[0].value.items| == |m.records|
  {
    Obj([Property(RecordsProperty, Arr(RecordsToWire(m.records)))])
  }

  /** The model's own inverse of `ModelToWire`: only an object whose single
      property is the `records` array is read back, with one entry per element. */
  function ModelFromWire<T>(j: Json<T>): (r: Option<PostRecordsModel<T>>)
    ensures r.Some? ==> j.Obj? && |j.members| == 1 && j.members[0].name == RecordsProperty
    ensures r.Some? ==> j.members[0].value.Arr? && |r.value.records| == |j.members[0].value.items|
  {
    match j
    case Obj(ms) =>
      if |ms| == 1 && ms[0].name == RecordsProperty && ms[0].value.Arr?
      then
        match RecordsFromWire(ms[0].value.items)
        case None => None
        case Some(rs) => Some(PostRecordsModel(rs))
      else None
    case _ => None
  }

  /** One step of the reader: a readable head followed by a readable tail. */
  lemma RecordsFromWireStep<T>(js: seq<Json<T>>, first: RecordModel<T>, rest: seq<RecordModel<T>>)
    requires |js| > 0
    requires RecordFromWire(js[0]) == Some(first)
    requires RecordsFromWire(js[1..]) == Some(rest)
    ensures RecordsFromWire(js) == Some([first] + rest)
  {
  }

  lemma {:induction false} RecordsWireRoundTrip<T>(rs: seq<RecordModel<T>>)
    ensures RecordsFromWire(RecordsToWire(rs)) == Some(rs)
    decreases |rs|
  {
    if |rs| > 0 {
      var js := RecordsToWire(rs);
      assert js[1..] == RecordsToWire(rs[1..]);
      RecordWireRoundTrip(rs[0]);
      RecordsWireRoundTrip(rs[1..]);
      RecordsFromWireStep(js, rs[0], rs[1..]);
      assert [rs[0]] + rs[1..] == rs;
    }
  }

  /** Whatever is read back from an array is exactly what that array encodes. */
  lemma {:induction false} RecordsFromWireInverse<T>(js: seq<Json<T>>)
    ensures RecordsFromWire(js).Some? ==> RecordsToWire(RecordsFromWire(js).value) == js
    decreases |js|
  {
    if |js| > 0 && RecordsFromWire(js).Some? {
      RecordsFromWireInverse(js[1..]);
      var rs := RecordsFromWire(js).value;
      assert rs[1..] == RecordsFromWire(js[1..]).value;
      assert RecordsToWire(rs) == [RecordToWire(rs[0])] + RecordsToWire(rs[1..]);
      assert [js[0]] + js[1..] == js;
    }
  }

  /** The envelope survives the trip through its wire shape unchanged. */
  lemma ModelWireRoundTrip<T>(m: PostRecordsModel<T>)
    ensures ModelFromWire(ModelToWire(m)) == Some(m)
  {
    RecordsWireRoundTrip(m.records);
  }

  /** Only the wire shape of an envelope is read back as an envelope. */
  lemma ModelFromWireInverse<T>(j: Json<T>)
    ensures ModelFromWire(j).Some? ==> ModelToWire(ModelFromWire(j).value) == j
  {
    if ModelFromWire(j).Some? {
      RecordsFromWireInverse(j.members[0].value.items);
    }
  }
}
