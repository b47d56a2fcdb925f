/**
 * `JSON.stringify` / `JSON.parse` as an abstract codec: encoding yields a
 * text, decoding either yields a value or fails (the `catch` branch).
 */
module Json {
  import opened Wrappers

  datatype Codec<!T> = Codec(encode: T -> string, decode: string -> Option<T>)

  /** A codec that reads back what it wrote, and never writes the empty text. */
  ghost predicate Lawful<T(!new)>(c: Codec<T>)
  {
    forall v :: c.encode(v) != "" && c.decode(c.encode(v)) == Some(v)
  }
}
