/** Open-ended JSON values, as held by the `Map` type of attributes and meta
    objects.  Numbers keep their literal text (the decoder is configured to
    preserve numbers as text). */
module Values {

  datatype Value =
    | Null
    | Bool(b: bool)
    | Number(literal: string)
    | Text(s: string)
    | List(items: seq<Value>)
    | Object(members: map<string, Value>)

  /** A general purpose map of string keys and arbitrary values. */
  type Map = map<string, Value>
}
