/** Byte streams: the reading and writing ends of a connection.
    Sockets, buffering and write failures are not modelled; a stream is the bytes
    that are still to be read, after which the peer has closed it. */
module Streams {

  type byte = b: int | 0 <= b < 0x100

  datatype Option<+T> = None | Some(value: T)

  /** Outcome of a step of a parser. */
  datatype Result<+T> = Ok(value: T) | Fail {
    predicate IsFailure() { Fail? }
    function PropagateFailure<U>(): Result<U> requires Fail? { Fail }
    function Extract(): T requires Ok? { value }
  }

  /** Takes exactly `n` bytes off the front of `s`, as `io.ReadFull` does. */
  function Take(s: seq<byte>, n: nat): (r: Result<(seq<byte>, seq<byte>)>)
    ensures r.Ok? <==> n <= |s|
    ensures r.Ok? ==> |r.value.0| == n && s == r.value.0 + r.value.1
  {
    if n <= |s| then Ok((s[..n], s[n..])) else Fail
  }

  class Reader {
    var rest: seq<byte>

    constructor (data: seq<byte>)
      ensures rest == data
    {
      rest := data;
    }

    method ReadByte() returns (b: Option<byte>)
      modifies this
      ensures old(rest) == [] ==> b == None && rest == []
      ensures old(rest) != [] ==> b == Some(old(rest)[0]) && rest == old(rest)[1..]
    {
      if rest == [] {
        return None;
      }
      b, rest := Some(rest[0]), rest[1..];
    }

    method ReadFull(n: nat) returns (got: Result<seq<byte>>)
      modifies this
      ensures got.Ok? == Take(old(rest), n).Ok?
      ensures got.Ok? ==> Take(old(rest), n) == Ok((got.value, rest))
      ensures got.Fail? ==> rest == []
    {
      if n <= |rest| {
        got, rest := Ok(rest[..n]), rest[n..];
      } else {
        got, rest := Fail, [];
      }
    }
  }

  class Writer {
    var out: seq<byte>

    constructor ()
      ensures out == []
    {
      out := [];
    }

    method Write(bytes: seq<byte>)
      modifies this
      ensures out == old(out) + bytes
    {
      out := out + bytes;
    }
  }
}
