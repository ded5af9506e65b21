/** Topic marker types: classes with no data whose simple type name is the topic. */
module Topics {

  /** A marker type, known only by its simple name (`typeof(TTopic).Name`). */
  datatype TopicMarker = TopicMarker(name: string)
}
