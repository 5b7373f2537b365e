/** The HTTP CONNECT response header: read line by line up to the first blank line, and no further. */
module HttpConnect {
  import opened Wrappers
  import opened Bytes
  import opened Streams

  const MAX_HTTP_RESPONSE_HEADER_BYTES: nat := 16384

  datatype HeaderError = ClosedEarly | TooLarge

  /** A blank line ends just before position `e`: a line feed (10), alone on its line but for a carriage return (13). */
  predicate BlankLineEndsAt(s: seq<Byte>, e: int) {
    && 0 < e <= |s| && s[e - 1] == 10
    && (e == 1 || s[e - 2] == 10 || (s[e - 2] == 13 && (e == 2 || s[e - 3] == 10)))
  }

  predicate FirstBlankLineEndsAt(s: seq<Byte>, e: int) {
    BlankLineEndsAt(s, e) && forall f :: 0 < f < e ==> !BlankLineEndsAt(s, f)
  }

  predicate AtLineStart(s: seq<Byte>, p: nat) {
    p <= |s| && (p == 0 || s[p - 1] == LF || p == |s|)
  }

  /** No blank line ends at or before `p`. */
  predicate NoBlankLineUpTo(s: seq<Byte>, p: nat) {
    forall f :: 0 < f <= p ==> !BlankLineEndsAt(s, f)
  }

  /** The next line is blank exactly when a blank line ends at its end; no blank line ends inside it. */
  lemma NextLine(s: seq<Byte>, headers: seq<Byte>, line: seq<Byte>, rest: seq<Byte>)
    requires s == headers + (line + rest) && line == (line + rest)[..LineLength(line + rest)] && line != []
    requires AtLineStart(s, |headers|) && NoBlankLineUpTo(s, |headers|)
    ensures s == (headers + line) + rest
    ensures AtLineStart(s, |headers + line|) && NoBlankLineUpTo(s, |headers + line| - 1)
    ensures if line == [CR, LF] || line == [LF] then FirstBlankLineEndsAt(s, |headers + line|)
            else NoBlankLineUpTo(s, |headers + line|)
  {
    var p, n := |headers|, |line|;
    assert forall i :: p <= i < p + n ==> s[i] == line[i - p] && line[i - p] == (line + rest)[i - p];
    assert p > 0 ==> s[p - 1] == LF;
    assert s[p + n - 1] == line[n - 1];
    if n >= 2 { assert line[n - 2] == s[p + n - 2] && line[n - 2] != LF; }
    if n >= 3 { assert line[n - 3] == s[p + n - 3] && line[n - 3] != LF; }
  }

  lemma StartOfStream(s: seq<Byte>)
    ensures AtLineStart(s, 0) && NoBlankLineUpTo(s, 0)
  {
  }

  ghost predicate HeaderFits(s: seq<Byte>) {
    exists e :: FirstBlankLineEndsAt(s, e) && e <= 16384
  }

  predicate HasNoBlankLine(s: seq<Byte>) {
    NoBlankLineUpTo(s, |s|)
  }

  lemma HeaderIsTooLarge(s: seq<Byte>, p: nat)
    requires MAX_HTTP_RESPONSE_HEADER_BYTES <= p && NoBlankLineUpTo(s, p)
    ensures !HeaderFits(s)
  {
  }

  lemma HeaderIsCutShort(s: seq<Byte>)
    requires NoBlankLineUpTo(s, |s|)
    ensures HasNoBlankLine(s) && !HeaderFits(s)
  {
  }

  lemma HeaderIsFound(s: seq<Byte>, e: int)
    requires FirstBlankLineEndsAt(s, e) && e <= MAX_HTTP_RESPONSE_HEADER_BYTES
    ensures HeaderFits(s) && !HasNoBlankLine(s)
  {
  }

  /** On success the stream is split at the end of its first blank line: the header, at most 16384 bytes of it, is
      returned and everything after it is still there to be read. It fails as too large or as cut short in exactly
      the remaining cases. */
  method ReadHttpResponseHeaders(stream: ByteStream) returns (r: Result<seq<Byte>, HeaderError>)
    modifies stream`incoming
    ensures r.Ok? ==> old(stream.incoming) == r.value + stream.incoming
    ensures r.Ok? ==>
              FirstBlankLineEndsAt(old(stream.incoming), |r.value|) && |r.value| <= 16384
    ensures r.Ok? <==> HeaderFits(old(stream.incoming))
    ensures r == Err(ClosedEarly) <==>
            |old(stream.incoming)| <= 16384 && HasNoBlankLine(old(stream.incoming))
  {
    hide BlankLineEndsAt, FirstBlankLineEndsAt, AtLineStart, NoBlankLineUpTo, HeaderFits, HasNoBlankLine, LineLength;
    ghost var s := stream.incoming;
    var headers := [];
    StartOfStream(s);
    while true
      invariant s == headers + stream.incoming
      invariant |headers| <= MAX_HTTP_RESPONSE_HEADER_BYTES
      invariant AtLineStart(s, |headers|) && NoBlankLineUpTo(s, |headers|)
      decreases |stream.incoming|
    {
      ghost var before := stream.incoming;
      var line := stream.ReadLine();
      assert line + stream.incoming == before;
      if line == [] {
        HeaderIsCutShort(s);
        return Err(ClosedEarly);
      }
      NextLine(s, headers, line, stream.incoming);
      headers := headers + line;
      if |headers| > MAX_HTTP_RESPONSE_HEADER_BYTES {
        HeaderIsTooLarge(s, |headers| - 1);
        return Err(TooLarge);
      }
      if line == [CR, LF] || line == [LF] {
        HeaderIsFound(s, |headers|);
        return Ok(headers);
      }
    }
  }
}
