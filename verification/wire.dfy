/** The shape in which the serializer sees the envelope: property names and
    nesting as fixed by the `JsonProperty` attributes. The text encoding and the
    encoding of the record values themselves belong to the serializer. */
module Wire {

  datatype Json<T> =
    | Payload(item: T)
    | Null
    | Str(text: string)
    | Arr(items: seq<Json<T>>)
    | Obj(members: seq<Property<T>>)

  datatype Property<T> = Property(name: string, value: Json<T>)
}
