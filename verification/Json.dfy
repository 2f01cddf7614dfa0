// Values shared by several components: JSON documents, optional values and collision-free digests.

module Json {

  datatype Option<+T> = None | Some(value: T)

  // A JSON value. Integers and floats are one constructor because they compare equal in the source language.
  datatype Json =
    | Null
    | Bool(b: bool)
    | Num(n: real)
    | Str(s: string)
    | Arr(items: seq<Json>)
    | Obj(fields: map<string, Json>)

  // SHA-256 over a canonical encoding, taken to be collision free: a digest determines its preimage.
  datatype Digest<T> = Sha256(preimage: T)

  function Get(m: map<string, Json>, key: string): Json {
    if key in m then m[key] else Null
  }
}
