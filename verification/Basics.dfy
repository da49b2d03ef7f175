/** Value types shared by the modules of the reporting protocol. */
module Basics {

  datatype Option<+T> = None | Some(value: T)

  /** A decoded JSON value; numbers are exact reals. */
  datatype Json =
    | Null
    | Bool(b: bool)
    | Number(x: real)
    | Text(s: string)
    | List(items: seq<Json>)
    | Object(members: map<string, Json>)

  newtype Byte = x: int | 0 <= x < 256

  /** A SHA-256 or HMAC-SHA256 output. */
  type Digest = seq<Byte>

  /** An ECDSA signature, the pair (R, S). */
  datatype Signature = Signature(r: int, s: int)
}
