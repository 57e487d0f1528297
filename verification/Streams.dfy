/** Input that arrives in pieces. */
module Streams {
  import opened Bytes

  /** What decoding a prefix of a stream comes to. */
  datatype Parsed<T> = NotReady | Bad | Got(value: T, rest: bytes)

  /** What a resumable read answers. */
  datatype Reply<T> = Wait | Fail | Ready(value: T)

  /** A reply agrees with decoding everything seen so far, and leaves the bytes behind the value unread. */
  predicate Agrees<T(==)>(reply: Reply<T>, left: bytes, p: Parsed<T>) {
    match p
    case NotReady => reply == Wait && left == []
    case Bad => reply == Fail
    case Got(v, rest) => reply == Ready(v) && left == rest
  }

  class InputStream {
    var data: bytes

    constructor ()
      ensures data == []
    {
      data := [];
    }

    method Arrive(chunk: bytes)
      modifies this
      ensures data == old(data) + chunk
    {
      data := data + chunk;
    }

    /** Up to `n` bytes, as many as there are. */
    method Read(n: nat) returns (got: bytes)
      modifies this
      ensures old(data) == got + data
      ensures |got| == if n < |old(data)| then n else |old(data)|
    {
      var k := if n < |data| then n else |data|;
      got, data := data[..k], data[k..];
    }
  }
}
