/**
 * The payloads the proxy moves around: raw bytes on the wire and the
 * dynamically typed JSON object (`structpb.Struct`) on the RPC side.  Their
 * encoding and decoding are library code and reach the model only as
 * functions passed in by the caller.
 */
module Json {
  newtype byte = x: int | 0 <= x < 256

  type Bytes = seq<byte>

  datatype Value =
    | Null
    | Bool(b: bool)
    | Number(n: real)
    | Str(s: string)
    | List(items: seq<Value>)
    | Object(fields: map<string, Value>)

  /** A JSON object: what `structpb.Struct` holds. */
  type Struct = map<string, Value>
}
