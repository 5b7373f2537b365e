/** The tunnel target an account's server field names. */
module Endpoint {
  import opened Wrappers
  import opened Text

  const PROXY_DEFAULT_TLS_PORT: nat := 5223

  datatype Target = Target(host: string, port: nat)

  datatype ConfigError = EmptyServer | InvalidBracketedServer | InvalidPort | ZeroPort | InvalidHost

  /** A 16-bit port: ASCII digits, with an optional plus sign. */
  function ParsePort(s: string): Option<nat> {
    var digits := if s != "" && s[0] == '+' then s[1..] else s;
    if digits == "" || !AllDigits(digits) || DecimalValue(digits) > 65535 then None else Some(DecimalValue(digits))
  }

  function SplitHostAndPort(server: string): Result<Option<Target>, ConfigError> {
    if server != "" && server[0] == '[' then
      var pieces := Split(server[1..], ']');
      if |pieces| == 1 then Err(InvalidBracketedServer)
      else
        var suffix := Join(pieces[1..], ']');
        if suffix == "" then Ok(None)
        else if suffix[0] != ':' || ParsePort(suffix[1..]).None? then Err(InvalidPort)
        else Ok(Some(Target(pieces[0], ParsePort(suffix[1..]).value)))
    else
      var pieces := Split(server, ':');
      if |pieces| != 2 then Ok(None)
      else if ParsePort(pieces[1]).None? then Err(InvalidPort)
      else Ok(Some(Target(pieces[0], ParsePort(pieces[1]).value)))
  }

  /** The host is checked without the whitespace around it, but kept with it. */
  predicate ValidHost(host: string) {
    Trim(host) != "" && !HasWhitespace(Trim(host))
  }

  function NewTarget(host: string, port: nat): Result<Target, ConfigError> {
    if !ValidHost(host) then Err(InvalidHost) else if port == 0 then Err(ZeroPort) else Ok(Target(host, port))
  }

  function FromServer(server: string): Result<Target, ConfigError> {
    var s := Trim(server);
    if s == "" then Err(EmptyServer)
    else
      match SplitHostAndPort(s)
      case Err(e) => Err(e)
      case Ok(None) => NewTarget(s, PROXY_DEFAULT_TLS_PORT)
      case Ok(Some(t)) => NewTarget(t.host, t.port)
  }

  /** Text that neither starts nor ends with whitespace is its own trimming. */
  lemma TrimOfFramed(s: string)
    requires s != "" && !IsWhitespace(s[0]) && !IsWhitespace(s[|s| - 1])
    ensures Trim(s) == s
  {
    TrimIsTrimmed(s);
    var r := Trim(s);
    var k :| 0 <= k <= |s| - |r| && r == s[k..k + |r|] && Blank(s[..k]) && Blank(s[k + |r|..]);
  }

  lemma PortRoundTrip(port: nat)
    requires port <= 65535
    ensures ParsePort(Decimal(port)) == Some(port)
  {
    DecimalValueOfDecimal(port);
    assert IsDigit(Decimal(port)[0]);
  }

  lemma DecimalIsSolid(n: nat)
    ensures forall i :: 0 <= i < |Decimal(n)| ==> !IsWhitespace(Decimal(n)[i])
    ensures ':' !in Decimal(n) && ']' !in Decimal(n)
  {
    assert forall i :: 0 <= i < |Decimal(n)| ==> IsDigit(Decimal(n)[i]);
  }

  /** `host:port` names that very host, whitespace before the colon included, and that port; whether it is accepted is
      up to the host and port alone. */
  lemma ExplicitEndpoint(host: string, port: nat)
    requires host != "" && !IsWhitespace(host[0]) && host[0] != '[' && ':' !in host && port <= 65535
    ensures FromServer(host + ":" + Decimal(port)) == NewTarget(host, port)
  {
    hide Trim, ParsePort, Decimal, NewTarget;
    PortRoundTrip(port);
    DecimalIsSolid(port);
    var server := host + ":" + Decimal(port);
    TrimOfFramed(server);
    SplitAtFirst(host, ':', Decimal(port));
    SplitPiecesAreFree(Decimal(port), ':');
    assert server == host + [':'] + Decimal(port) && server[0] == host[0];
  }

  /** So does `[host]:port`, for hosts that hold colons or start with whitespace. */
  lemma BracketedEndpoint(host: string, port: nat)
    requires ']' !in host && port <= 65535
    ensures FromServer("[" + host + "]:" + Decimal(port)) == NewTarget(host, port)
  {
    hide Trim, ParsePort, Decimal, Split, NewTarget;
    PortRoundTrip(port);
    DecimalIsSolid(port);
    var server := "[" + host + "]:" + Decimal(port);
    TrimOfFramed(server);
    var tail := ":" + Decimal(port);
    SplitAtFirst(host, ']', tail);
    SplitPiecesAreFree(tail, ']');
    assert server[1..] == host + [']'] + tail;
    assert Split(server[1..], ']') == [host, tail];
    assert [host, tail][1..] == [tail];
    assert tail[1..] == Decimal(port);
  }

  /** What a target accepts: a host that is one word, possibly with whitespace around it, and a port other than zero. */
  lemma TargetIsAccepted(host: string, port: nat)
    ensures NewTarget(host, port) ==
            if Blank(host) || HasWhitespace(Trim(host)) then Err(InvalidHost)
            else if port == 0 then Err(ZeroPort) else Ok(Target(host, port))
  {
    TrimIsTrimmed(host);
  }

  /** A server without an explicit port, whatever whitespace surrounds it, is used verbatim with the direct-TLS port: a
      name without colons, or an unbracketed address with several. */
  lemma BareServer(server: string)
    requires var s := Trim(server); s != "" && s[0] != '[' && |Split(s, ':')| != 2
    ensures var s := Trim(server);
            FromServer(server) == if HasWhitespace(s) then Err(InvalidHost) else Ok(Target(s, 5223))
  {
    hide Split, Trim;
    TrimIsIdempotent(server);
  }

  /** A port is a 16-bit decimal numeral, leading zeros allowed, with or without a plus sign. */
  lemma PortsAreNumerals(s: string, port: nat)
    ensures ParsePort(s) == Some(port) <==>
            && port <= 65535
            && exists digits :: digits != "" && AllDigits(digits) && DecimalValue(digits) == port
                                && (s == digits || s == "+" + digits)
  {
    if digits :| digits != "" && AllDigits(digits) && DecimalValue(digits) == port && (s == digits || s == "+" + digits)
    {
      if s == digits {
        assert IsDigit(s[0]);
      } else {
        assert s[1..] == digits;
      }
    }
    if ParsePort(s) == Some(port) {
      var digits := if s[0] == '+' then s[1..] else s;
      assert s == digits || s == "+" + digits;
    }
  }

  /** An open bracket needs a closing one; what follows that is nothing, for the whole text and the direct-TLS port, or
      a colon and a port. */
  lemma BracketsAreChecked(inside: string, suffix: string)
    requires Trim("[" + inside) == "[" + inside && Trim("[" + inside + "]" + suffix) == "[" + inside + "]" + suffix
    requires ']' !in inside
    ensures FromServer("[" + inside) == Err(InvalidBracketedServer)
    ensures suffix == "" ==> FromServer("[" + inside + "]") == NewTarget("[" + inside + "]", 5223)
    ensures suffix != "" && (suffix[0] != ':' || ParsePort(suffix[1..]).None?) ==>
              FromServer("[" + inside + "]" + suffix) == Err(InvalidPort)
  {
    hide Trim, ParsePort, NewTarget;
    SplitPiecesAreFree(inside, ']');
    assert ("[" + inside)[1..] == inside;
    SplitAtFirst(inside, ']', suffix);
    assert ("[" + inside + "]" + suffix)[1..] == inside + [']'] + suffix;
    assert ([inside] + Split(suffix, ']'))[1..] == Split(suffix, ']');
    JoinOfSplit(suffix, ']');
    assert "[" + inside + "]" + "" == "[" + inside + "]";
  }

  /** What follows the only colon must be a port. */
  lemma PortsAreChecked(host: string, port: string)
    requires Trim(host + ":" + port) == host + ":" + port
    requires (host != "" ==> host[0] != '[') && ':' !in host && ':' !in port
    ensures ParsePort(port).None? ==> FromServer(host + ":" + port) == Err(InvalidPort)
    ensures ParsePort(port).Some? ==> FromServer(host + ":" + port) == NewTarget(host, ParsePort(port).value)
  {
    hide Trim, ParsePort, NewTarget;
    assert host + ":" + port == host + [':'] + port;
    SplitAtFirst(host, ':', port);
    SplitPiecesAreFree(port, ':');
    assert host != "" ==> (host + ":" + port)[0] == host[0];
  }

  /** Whitespace around the whole field never matters. */
  lemma EdgesAreIgnored(server: string)
    ensures FromServer(Trim(server)) == FromServer(server)
  {
    hide Trim, SplitHostAndPort;
    TrimIsIdempotent(server);
  }

  lemma PortsAreShort(server: string)
    ensures match SplitHostAndPort(server)
            case Ok(Some(t)) => t.port <= 65535
            case _ => true
  {
    hide Split, Join, AllDigits, DecimalValue;
  }

  /** Every target has a usable port and a host that is more than whitespace. */
  lemma TargetsAreUsable(server: string)
    ensures FromServer(server).Ok? ==>
              1 <= FromServer(server).value.port <= 65535 && ValidHost(FromServer(server).value.host)
    ensures Blank(server) ==> FromServer(server) == Err(EmptyServer)
  {
    hide SplitHostAndPort, Trim, Trimmed, ValidHost, Blank;
    TrimIsTrimmed(server);
    PortsAreShort(Trim(server));
  }
}
