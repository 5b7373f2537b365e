/** A connection as a proxy handshake sees it: bytes still to be read, and bytes written. */
module Streams {
  import opened Wrappers
  import opened Bytes

  const LF: Byte := 10
  const CR: Byte := 13

  /** The length of the first line, its terminator included, or of everything if there is none. */
  function LineLength(s: seq<Byte>): (n: nat)
    ensures n <= |s| && (s != [] ==> n > 0)
    ensures forall i :: 0 <= i < n - 1 ==> s[i] != LF
    ensures n < |s| ==> s[n - 1] == LF
  {
    if s == [] then 0 else if s[0] == LF then 1 else 1 + LineLength(s[1..])
  }

  class ByteStream {
    var incoming: seq<Byte>
    var sent: seq<Byte>

    constructor (incoming: seq<Byte>)
      ensures this.incoming == incoming && sent == []
    {
      this.incoming, sent := incoming, [];
    }

    /** Reads exactly `n` bytes; a connection that ends first has nothing left. */
    method ReadExact(n: nat) returns (r: Option<seq<Byte>>)
      modifies this`incoming
      ensures r.Some? <==> n <= |old(incoming)|
      ensures r.Some? ==> |r.value| == n && old(incoming) == r.value + incoming
      ensures r.None? ==> incoming == []
    {
      if |incoming| < n {
        incoming := [];
        return None;
      }
      r := Some(incoming[..n]);
      incoming := incoming[n..];
    }

    /** Reads up to and including a line feed; an empty line means the connection ended. */
    method ReadLine() returns (line: seq<Byte>)
      modifies this`incoming
      ensures line == old(incoming)[..LineLength(old(incoming))]
      ensures old(incoming) == line + incoming
    {
      var n := LineLength(incoming);
      line := incoming[..n];
      incoming := incoming[n..];
    }

    method WriteAll(bytes: seq<Byte>)
      modifies this`sent
      ensures sent == old(sent) + bytes
    {
      sent := sent + bytes;
    }
  }
}
