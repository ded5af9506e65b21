/** One entry of the publish envelope (`RecordModel<T>`). */
module RecordModels {
  import opened Wrappers
  import opened Wire

  /** The constructor `RecordModel(value, key)` stores both arguments as given:
      there is no check, and any key, the empty one and null included, is kept. */
  datatype RecordModel<T> = RecordModel(value: T, key: Option<string>)

  const ValueProperty: string := "value"
  const KeyProperty: string := "key"

  /** A key on the wire: a JSON string, or JSON null for a null key. */
  function KeyToWire<T>(key: Option<string>): (j: Json<T>)
    ensures key.None? <==> j.Null?
    ensures key.Some? ==> j == Str(key.value)
  {
    match key
    case None => Null
    case Some(k) => Str(k)
  }

  /** The JSON object the serializer is handed for one entry: exactly two
      properties, `value` first and `key` second. */
  function RecordToWire<T>(r: RecordModel<T>): (j: Json<T>)
    ensures j.Obj? && |j.members| == 2
    ensures j.members[0] == Property(ValueProperty, Payload(r.value))
    ensures j.members[1] == Property(KeyProperty, KeyToWire(r.key))
  {
    Obj([Property(ValueProperty, Payload(r.value)), Property(KeyProperty, KeyToWire(r.key))])
  }

  /** The model's own inverse of `RecordToWire`, used to show that the wire
      shape loses nothing; the client itself never reads an entry back.
      Anything but the wire shape of an entry is rejected. */
  function RecordFromWire<T>(j: Json<T>): (r: Option<RecordModel<T>>)
    ensures r.Some? ==> RecordToWire(r.value) == j
  {
    match j
    case Obj(ms) =>
      if |ms| == 2 && ms[0].name == ValueProperty && ms[0].value.Payload?
         && ms[1].name == KeyProperty && (ms[1].value.Str? || ms[1].value.Null?)
      then Some(RecordModel(ms[0].value.item, if ms[1].value.Str? then Some(ms[1].value.text) else None))
      else None
    case _ => None
  }

  lemma RecordWireRoundTrip<T>(r: RecordModel<T>)
    ensures RecordFromWire(RecordToWire(r)) == Some(r)
  {
  }

  /** Two entries with the same wire shape are the same entry. */
  lemma RecordToWireInjective<T>(a: RecordModel<T>, b: RecordModel<T>)
    requires RecordToWire(a) == RecordToWire(b)
    ensures a == b
  {
    RecordWireRoundTrip(a);
    RecordWireRoundTrip(b);
  }
}
