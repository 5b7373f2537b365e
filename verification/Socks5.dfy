/** SOCKS5 framing: RFC 1928 sections 3, 4 and 6, and RFC 1929 section 2. */
module Socks5 {
  import opened Wrappers
  import opened Bytes
  import opened Streams

  const VERSION: Byte := 5
  const METHOD_NO_AUTH: Byte := 0
  const METHOD_USER_PASS: Byte := 2
  const METHOD_REJECTED: Byte := 255
  const AUTH_VERSION: Byte := 1
  const CMD_CONNECT: Byte := 1
  const ATYP_IPV4: Byte := 1
  const ATYP_DOMAIN: Byte := 3
  const ATYP_IPV6: Byte := 4
  const REP_SUCCEEDED: Byte := 0

  datatype ProxyError =
    | Io | InvalidHost | BadReplyLength | WrongVersion(version: Byte) | BadReserved | UnsupportedAddressType(atyp: Byte)
    | MethodRejected | UnsupportedMethod(selected: Byte) | CredentialsRequired | AuthRejected
    | ConnectFailed(reply: Byte)

  // ----- greeting and authentication ----------------------------------------------------------------

  /** At most 255 methods or characters fit a one-byte count; the rest is cut off. */
  function Counted(bytes: seq<Byte>): seq<Byte> {
    var n := if |bytes| <= 255 then |bytes| else 255;
    [n] + bytes[..n]
  }

  function Greeting(methods: seq<Byte>): seq<Byte> {
    [VERSION] + Counted(methods)
  }

  /** No authentication always, a password if there is one. */
  function OfferedMethods(password: Option<seq<Byte>>): seq<Byte> {
    if password.Some? then [METHOD_NO_AUTH, METHOD_USER_PASS] else [METHOD_NO_AUTH]
  }

  function AuthRequest(username: seq<Byte>, password: seq<Byte>): seq<Byte> {
    [AUTH_VERSION] + Counted(username) + Counted(password)
  }

  /** Reads a counted field off the front, as a server does. */
  function TakeCounted(s: seq<Byte>): Option<(seq<Byte>, seq<Byte>)> {
    if s == [] || |s| < 1 + Value(s[0]) then None else Some((s[1..1 + Value(s[0])], s[1 + Value(s[0])..]))
  }

  lemma CountedRoundTrip(bytes: seq<Byte>, rest: seq<Byte>)
    ensures TakeCounted(Counted(bytes) + rest) == Some((bytes[..if |bytes| <= 255 then |bytes| else 255], rest))
  {
    var n := if |bytes| <= 255 then |bytes| else 255;
    var s := Counted(bytes) + rest;
    assert s[1..1 + n] == bytes[..n] && s[1 + n..] == rest;
  }

  /** A server reads back the offered methods, and the user name and password, whatever follows them on the wire;
      fields longer than 255 bytes arrive cut to 255. */
  lemma GreetingAndAuthRoundTrip(methods: seq<Byte>, username: seq<Byte>, password: seq<Byte>, rest: seq<Byte>)
    ensures (Greeting(methods) + rest)[0] == VERSION
    ensures |methods| <= 255 ==> TakeCounted((Greeting(methods) + rest)[1..]) == Some((methods, rest))
    ensures |username| <= 255 && |password| <= 255 ==>
              var name := TakeCounted((AuthRequest(username, password) + rest)[1..]);
              name.Some? && name.value.0 == username && TakeCounted(name.value.1) == Some((password, rest))
  {
    assert (Greeting(methods) + rest)[1..] == Counted(methods) + rest;
    CountedRoundTrip(methods, rest);
    assert (AuthRequest(username, password) + rest)[1..] == Counted(username) + (Counted(password) + rest);
    CountedRoundTrip(username, Counted(password) + rest);
    CountedRoundTrip(password, rest);
    if |methods| <= 255 { assert methods[..|methods|] == methods; }
    if |username| <= 255 { assert username[..|username|] == username; }
    if |password| <= 255 { assert password[..|password|] == password; }
  }

  /** The bytes of a greeting and of a password-only authentication request: the password is cut to 255 bytes. */
  lemma GreetingAndAuthBytes(password: seq<Byte>)
    ensures Greeting(OfferedMethods(None)) == [5, 1, 0]
    ensures Greeting(OfferedMethods(Some(password))) == [5, 2, 0, 2]
    ensures |password| <= 255 ==> AuthRequest([], password) == [1, 0, |password|] + password
    ensures |password| > 255 ==> AuthRequest([], password) == [1, 0, 255] + password[..255]
  {
    if |password| <= 255 {
      assert password[..|password|] == password;
    }
  }

  function ParseMethodReply(bytes: seq<Byte>): Result<Byte, ProxyError> {
    if |bytes| != 2 then Err(BadReplyLength)
    else if bytes[0] != VERSION then Err(WrongVersion(bytes[0]))
    else if bytes[1] == METHOD_REJECTED then Err(MethodRejected)
    else Ok(bytes[1])
  }

  function ParseAuthReply(bytes: seq<Byte>): Result<(), ProxyError> {
    if |bytes| != 2 then Err(BadReplyLength)
    else if bytes[0] != AUTH_VERSION then Err(WrongVersion(bytes[0]))
    else if bytes[1] == 0 then Ok(())
    else Err(AuthRejected)
  }

  /** What the two short replies mean, byte by byte. */
  lemma ShortReplies(bytes: seq<Byte>)
    ensures var chosen := ParseMethodReply(bytes);
            && (chosen.Ok? <==> |bytes| == 2 && bytes[0] == 5 && bytes[1] != 255)
            && (chosen.Ok? ==> chosen.value == bytes[1])
            && (chosen == Err(MethodRejected) <==> bytes == [5, 255])
            && (chosen == Err(BadReplyLength) <==> |bytes| != 2)
    ensures var auth := ParseAuthReply(bytes);
            && (auth.Ok? <==> bytes == [1, 0])
            && (auth == Err(AuthRejected) <==> |bytes| == 2 && bytes[0] == 1 && bytes[1] != 0)
            && (auth == Err(BadReplyLength) <==> |bytes| != 2)
  {
  }

  // ----- the CONNECT request --------------------------------------------------------------------------

  /** What a host parses to as an IP literal; the parser itself is given. */
  datatype Literal =
    | NotLiteral
    | V4(octets: seq<Byte>)
    | V6(octets: seq<Byte>)
  {
    predicate Valid() {
      match this
      case NotLiteral => true
      case V4(octets) => |octets| == 4
      case V6(octets) => |octets| == 16
    }
  }

  datatype Host = Name(bytes: seq<Byte>) | Ip4(octets: seq<Byte>) | Ip6(octets: seq<Byte>)

  function PortBytes(port: nat): seq<Byte>
    requires port < 0x10000
  {
    [port / 256, port % 256]
  }

  function Word(high: Byte, low: Byte): nat {
    Value(high) * 256 + Value(low)
  }

  function EncodeAddress(host: seq<Byte>, literal: Literal): Result<seq<Byte>, ProxyError> {
    match literal
    case V4(octets) => Ok([ATYP_IPV4] + octets)
    case V6(octets) => Ok([ATYP_IPV6] + octets)
    case NotLiteral =>
      if host == [] || |host| > 255 then Err(InvalidHost) else Ok([ATYP_DOMAIN] + [|host|] + host)
  }

  function ConnectRequest(host: seq<Byte>, port: nat, literal: Literal): Result<seq<Byte>, ProxyError>
    requires port < 0x10000
  {
    match EncodeAddress(host, literal)
    case Err(e) => Err(e)
    case Ok(address) => Ok([VERSION, CMD_CONNECT, 0] + address + PortBytes(port))
  }

  /** The bytes of a request: a connect command, the address under its type, and the port high byte first. */
  lemma RequestBytes(host: seq<Byte>, port: nat, literal: Literal)
    requires port < 0x10000 && ConnectRequest(host, port, literal).Ok?
    ensures var tail := [port / 256, port % 256];
            ConnectRequest(host, port, literal).value ==
            match literal
            case NotLiteral => [5, 1, 0, 3, |host|] + host + tail
            case V4(octets) => [5, 1, 0, 1] + octets + tail
            case V6(octets) => [5, 1, 0, 4] + octets + tail
  {
  }

  /** The request as a proxy decodes it off the front of a connection: host, port and what follows. */
  function DecodeRequest(s: seq<Byte>): Option<(Host, nat, seq<Byte>)> {
    if |s| < 4 || s[0] != VERSION || s[1] != CMD_CONNECT then None
    else
      var body := s[4..];
      if s[3] == ATYP_IPV4 && |body| >= 6 then Some((Ip4(body[..4]), Word(body[4], body[5]), body[6..]))
      else if s[3] == ATYP_IPV6 && |body| >= 18 then Some((Ip6(body[..16]), Word(body[16], body[17]), body[18..]))
      else if s[3] == ATYP_DOMAIN && body != [] && |body| >= Value(body[0]) + 3 then
        var n := Value(body[0]);
        Some((Name(body[1..1 + n]), Word(body[1 + n], body[2 + n]), body[3 + n..]))
      else None
  }

  /** A request is refused exactly for a name that is empty or too long; otherwise the proxy decodes the very host
      bytes and port, and nothing of what follows. */
  lemma RequestRoundTrip(host: seq<Byte>, port: nat, literal: Literal, rest: seq<Byte>)
    requires port < 0x10000 && literal.Valid()
    ensures ConnectRequest(host, port, literal).Err? <==> literal.NotLiteral? && !(1 <= |host| <= 255)
    ensures ConnectRequest(host, port, literal).Ok? ==>
              var named := match literal
                           case NotLiteral => Name(host)
                           case V4(octets) => Ip4(octets)
                           case V6(octets) => Ip6(octets);
              DecodeRequest(ConnectRequest(host, port, literal).value + rest) == Some((named, port, rest))
  {
    if ConnectRequest(host, port, literal).Ok? {
      var s := ConnectRequest(host, port, literal).value + rest;
      match literal
      case NotLiteral =>
        var n := |host|;
        assert s[4..] == [n] + host + PortBytes(port) + rest;
        assert s[4..][1..1 + n] == host && s[4..][3 + n..] == rest;
      case V4(octets) =>
        assert s[4..] == octets + PortBytes(port) + rest;
        assert s[4..][..4] == octets && s[4..][6..] == rest;
      case V6(octets) =>
        assert s[4..] == octets + PortBytes(port) + rest;
        assert s[4..][..16] == octets && s[4..][18..] == rest;
    }
  }

  // ----- the CONNECT reply ------------------------------------------------------------------------------

  /** The length a reply header announces, if its address type is known and its length byte is there. */
  function ReplyLength(s: seq<Byte>): Option<nat> {
    if |s| < 4 then None
    else if s[3] == ATYP_IPV4 then Some(10)
    else if s[3] == ATYP_IPV6 then Some(22)
    else if s[3] == ATYP_DOMAIN && |s| > 4 then Some(7 + Value(s[4]))
    else None
  }

  predicate WellFramed(reply: seq<Byte>) {
    ReplyLength(reply) == Some(|reply|)
  }

  function ParseConnectReply(bytes: seq<Byte>): Result<(), ProxyError> {
    if |bytes| < 4 then Err(BadReplyLength)
    else if bytes[0] != VERSION then Err(WrongVersion(bytes[0]))
    else if bytes[2] != 0 then Err(BadReserved)
    else if bytes[3] != ATYP_IPV4 && bytes[3] != ATYP_IPV6 && bytes[3] != ATYP_DOMAIN then
      Err(UnsupportedAddressType(bytes[3]))
    else if bytes[3] == ATYP_DOMAIN && |bytes| <= 4 then Err(BadReplyLength)
    else
      var addressLength :=
        if bytes[3] == ATYP_IPV4 then 4 else if bytes[3] == ATYP_IPV6 then 16 else Value(bytes[4]) + 1;
      if |bytes| != 4 + addressLength + 2 then Err(BadReplyLength)
      else if bytes[1] == REP_SUCCEEDED then Ok(())
      else Err(ConnectFailed(bytes[1]))
  }

  /** What the parser says of a reply that is framed as its header announces: never a length error. */
  lemma FramedRepliesParse(reply: seq<Byte>)
    requires WellFramed(reply)
    ensures ParseConnectReply(reply) != Err(BadReplyLength)
    ensures ParseConnectReply(reply).Ok? <==> reply[0] == VERSION && reply[1] == REP_SUCCEEDED && reply[2] == 0
  {
  }

  /** A reply that grants the connection: version 5, code 0, and an address of a known type followed by a port. */
  predicate Grants(reply: seq<Byte>) {
    && |reply| > 4 && reply[0] == 5 && reply[1] == 0 && reply[2] == 0
    && ( || (reply[3] == 1 && |reply| == 10)
         || (reply[3] == 3 && |reply| == 7 + Value(reply[4]))
         || (reply[3] == 4 && |reply| == 22))
  }

  lemma AcceptedIffGranted(reply: seq<Byte>)
    ensures ParseConnectReply(reply).Ok? <==> Grants(reply)
    ensures Grants(reply) ==> WellFramed(reply)
    ensures WellFramed(reply) && reply[0] == 5 && reply[2] == 0 && reply[1] != 0 ==>
              ParseConnectReply(reply) == Err(ConnectFailed(reply[1]))
  {
  }

  /** Why a reply is refused, in the order of the checks: too short, another version, a reserved byte that is not zero,
      an unknown address type, a length other than that type announces, and only then the proxy's own refusal. */
  lemma WhyRepliesAreRefused(reply: seq<Byte>)
    ensures var parsed := ParseConnectReply(reply);
            if |reply| < 4 then parsed == Err(BadReplyLength)
            else if reply[0] != 5 then parsed == Err(WrongVersion(reply[0]))
            else if reply[2] != 0 then parsed == Err(BadReserved)
            else if reply[3] !in {1, 3, 4} then parsed == Err(UnsupportedAddressType(reply[3]))
            else if Grants(reply[1 := 0]) then reply[1] != 0 ==> parsed == Err(ConnectFailed(reply[1]))
            else parsed == Err(BadReplyLength)
  {
  }

  /** An accepted reply is well framed, and no proper prefix or extension of it is. */
  lemma RepliesArePrefixFree(a: seq<Byte>, b: seq<Byte>)
    requires WellFramed(a) && WellFramed(b) && a <= b
    ensures a == b
  {
    assert a[3] == b[3];
    if a[3] == ATYP_DOMAIN {
      assert a[4] == b[4];
    }
  }

  lemma AcceptedRepliesAreFramed(reply: seq<Byte>)
    ensures var parsed := ParseConnectReply(reply);
            parsed.Ok? || (parsed.Err? && parsed.error.ConnectFailed?) ==>
              WellFramed(reply)
  {
  }

  /** Reading off a connection: the reply and what follows it, an I/O error if the connection ends first. */
  function ReadReply(s: seq<Byte>): Result<(seq<Byte>, seq<Byte>), ProxyError> {
    if |s| < 4 then Err(Io)
    else if s[3] != ATYP_IPV4 && s[3] != ATYP_IPV6 && s[3] != ATYP_DOMAIN then Err(UnsupportedAddressType(s[3]))
    else if s[3] == ATYP_DOMAIN && |s| == 4 then Err(Io)
    else if |s| < ReplyLength(s).value then Err(Io)
    else Ok((s[..ReplyLength(s).value], s[ReplyLength(s).value..]))
  }

  /** The reader returns a reply exactly when the connection starts with a well-framed one; it consumes that and no
      more. */
  lemma ReadsExactlyTheReply(s: seq<Byte>, reply: seq<Byte>, rest: seq<Byte>)
    ensures ReadReply(s) == Ok((reply, rest)) <==> s == reply + rest && WellFramed(reply)
  {
    if ReadReply(s) == Ok((reply, rest)) {
      assert reply[3] == s[3] && (|reply| > 4 ==> reply[4] == s[4]);
    }
    if s == reply + rest && WellFramed(reply) {
      assert reply[3] == s[3] && (|reply| > 4 ==> reply[4] == s[4]);
      assert s[..|reply|] == reply && s[|reply|..] == rest;
    }
  }

  /** It fails as soon as four bytes show an unknown address type, and otherwise only where the connection ends. */
  lemma WhyNoReplyIsRead(s: seq<Byte>)
    ensures var read := ReadReply(s);
            read.Err? ==> read.error == if |s| >= 4 && s[3] !in {1, 3, 4} then UnsupportedAddressType(s[3]) else Io
  {
  }

  /** Reads the header, the length byte of a domain address, then the rest. */
  method ReadSocks5ConnectReply(stream: ByteStream) returns (r: Result<seq<Byte>, ProxyError>)
    modifies stream`incoming
    ensures match ReadReply(old(stream.incoming))
            case Ok((reply, rest)) => r == Ok(reply) && stream.incoming == rest
            case Err(e) => r == Err(e)
    ensures r.Ok? ==> WellFramed(r.value) && old(stream.incoming) == r.value + stream.incoming
    ensures r.Ok? ==> ParseConnectReply(r.value) != Err(BadReplyLength)
  {
    ghost var s := stream.incoming;
    var header := stream.ReadExact(4);
    if header.None? { return Err(Io); }
    assert header.value[3] == s[3];
    var addressBytes: nat;
    if header.value[3] == ATYP_IPV4 {
      addressBytes := 4;
    } else if header.value[3] == ATYP_IPV6 {
      addressBytes := 16;
    } else if header.value[3] == ATYP_DOMAIN {
      var length := stream.ReadExact(1);
      if length.None? { return Err(Io); }
      addressBytes := length.value[0];
      assert s[4] == addressBytes;
    } else {
      return Err(UnsupportedAddressType(header.value[3]));
    }
    var tail := stream.ReadExact(addressBytes + 2);
    if tail.None? { return Err(Io); }
    var reply := header.value;
    if header.value[3] == ATYP_DOMAIN { reply := reply + [addressBytes]; }
    reply := reply + tail.value;
    assert s == reply + stream.incoming;
    ReadsExactlyTheReply(s, reply, stream.incoming);
    FramedRepliesParse(reply);
    r := Ok(reply);
  }

  // ----- the handshake -----------------------------------------------------------------------------------

  /** What a successful handshake reads, up to the tunnel's own bytes. */
  ghost predicate Accepted(read: seq<Byte>, authenticated: bool) {
    exists reply ::
      Grants(reply) && read == (if authenticated then [5, 2, 1, 0] else [5, 0]) + reply
  }

  /** A proxy that lets the client through: it takes the password, or asks for none, and grants the connection. */
  ghost predicate LetsThrough(incoming: seq<Byte>, authenticated: bool) {
    exists n :: 0 <= n <= |incoming| && Accepted(incoming[..n], authenticated)
  }

  lemma LetThroughInParts(s: seq<Byte>, authenticated: bool)
    requires LetsThrough(s, authenticated)
    ensures var k := if authenticated then 4 else 2;
            && |s| >= k && s[0] == 5 && s[1] == (if authenticated then 2 else 0)
            && (authenticated ==> s[2] == 1 && s[3] == 0)
            && ReadReply(s[k..]).Ok? && Grants(ReadReply(s[k..]).value.0)
  {
    hide ReadReply;
    var n :| 0 <= n <= |s| && Accepted(s[..n], authenticated);
    var reply :| Grants(reply) && s[..n] == (if authenticated then [5, 2, 1, 0] else [5, 0]) + reply;
    var k := if authenticated then 4 else 2;
    assert s == s[..n] + s[n..];
    assert s[k..] == reply + s[n..];
    AcceptedIffGranted(reply);
    ReadsExactlyTheReply(s[k..], reply, s[n..]);
  }

  /** A proxy that does not, with the password there is. */
  ghost predicate ShutsOut(incoming: seq<Byte>, password: Option<seq<Byte>>) {
    !LetsThrough(incoming, false) && !(password.Some? && LetsThrough(incoming, true))
  }

  lemma WrongMethodShutsOut(s: seq<Byte>, password: Option<seq<Byte>>)
    requires |s| >= 2 && s[0] == 5 ==> s[1] != 0 && (s[1] == 2 ==> password.None?)
    ensures ShutsOut(s, password)
  {
    hide LetsThrough, Grants, ReadReply;
    if LetsThrough(s, false) { LetThroughInParts(s, false); }
    if LetsThrough(s, true) { LetThroughInParts(s, true); }
  }

  lemma WrongPasswordShutsOut(s: seq<Byte>, password: Option<seq<Byte>>)
    requires |s| >= 2 && s[1] == 2 && (|s| >= 4 ==> s[2..4] != [1, 0])
    ensures ShutsOut(s, password)
  {
    hide LetsThrough, Grants, ReadReply;
    if LetsThrough(s, false) { LetThroughInParts(s, false); }
    if LetsThrough(s, true) { LetThroughInParts(s, true); }
  }

  lemma WrongReplyShutsOut(s: seq<Byte>, password: Option<seq<Byte>>)
    requires |s| >= 2 && (s[1] == 2 ==> |s| >= 4)
    requires var k := if s[1] == 2 then 4 else 2;
             ReadReply(s[k..]).Ok? ==> !Grants(ReadReply(s[k..]).value.0)
    ensures ShutsOut(s, password)
  {
    hide LetsThrough, Grants, ReadReply;
    if LetsThrough(s, false) { LetThroughInParts(s, false); }
    if LetsThrough(s, true) { LetThroughInParts(s, true); }
  }

  lemma ReadOff(s: seq<Byte>, read: seq<Byte>, rest: seq<Byte>)
    requires s == read + rest
    ensures |s| - |rest| == |read| && s[..|read|] == read && s[|read|..] == rest
  {
  }

  lemma GrantedIsAccepted(read: seq<Byte>, reply: seq<Byte>, authenticated: bool)
    requires Grants(reply) && read == if authenticated then [5, 2, 1, 0] else [5, 0]
    ensures Accepted(read + reply, authenticated)
  {
  }

  /** The greeting and, if the proxy asks for it, the password: the exchange up to the request. */
  method Negotiate(stream: ByteStream, password: Option<seq<Byte>>)
    returns (r: Result<(), ProxyError>, authenticated: bool)
    modifies stream
    ensures authenticated ==> password.Some?
    ensures r.Ok? ==> stream.sent == old(stream.sent) + (if password.Some? then [5, 2, 0, 2] else [5, 1, 0])
                                     + (if authenticated then AuthRequest([], password.value) else [])
    ensures r.Ok? ==> old(stream.incoming) == (if authenticated then [5, 2, 1, 0] else [5, 0]) + stream.incoming
    ensures r.Err? ==> ShutsOut(old(stream.incoming), password)
    ensures old(stream.sent) + (if password.Some? then [5, 2, 0, 2] else [5, 1, 0]) <= stream.sent
  {
    hide Greeting, AuthRequest, ShutsOut, ParseMethodReply, ParseAuthReply, OfferedMethods;
    authenticated := false;
    ghost var s := stream.incoming;
    GreetingAndAuthBytes(if password.Some? then password.value else []);
    stream.WriteAll(Greeting(OfferedMethods(password)));
    var methodReply := stream.ReadExact(2);
    if methodReply.None? { WrongMethodShutsOut(s, password); return Err(Io), authenticated; }
    var selected := ParseMethodReply(methodReply.value);
    ShortReplies(methodReply.value);
    assert methodReply.value[0] == s[0] && methodReply.value[1] == s[1];
    if selected.Err? { WrongMethodShutsOut(s, password); return Err(selected.error), authenticated; }
    if selected.value == METHOD_USER_PASS {
      if password.None? { WrongMethodShutsOut(s, password); return Err(CredentialsRequired), authenticated; }
      stream.WriteAll(AuthRequest([], password.value));
      var authReply := stream.ReadExact(2);
      if authReply.None? { WrongPasswordShutsOut(s, password); return Err(Io), authenticated; }
      var auth := ParseAuthReply(authReply.value);
      assert authReply.value == s[2..4];
      ShortReplies(authReply.value);
      if auth.Err? { WrongPasswordShutsOut(s, password); return Err(auth.error), authenticated; }
      authenticated := true;
    } else if selected.value != METHOD_NO_AUTH {
      WrongMethodShutsOut(s, password);
      return Err(UnsupportedMethod(selected.value)), authenticated;
    }
    r := Ok(());
  }

  /** Runs the exchange. It succeeds exactly when the proxy lets the client through, a password it asks for is there,
      and the address can be named. What it sent is then the greeting, the password if and only if the proxy asked for
      it, and the request; and what remains unread is exactly what follows the reply. */
  method Socks5Handshake(stream: ByteStream, host: seq<Byte>, port: nat, literal: Literal, password: Option<seq<Byte>>)
    returns (r: Result<(), ProxyError>, authenticated: bool)
    requires port < 0x10000
    modifies stream
    ensures authenticated ==> password.Some?
    ensures r.Ok? ==> ConnectRequest(host, port, literal).Ok?
                      && stream.sent == old(stream.sent) + (if password.Some? then [5, 2, 0, 2] else [5, 1, 0])
                                        + (if authenticated then AuthRequest([], password.value) else [])
                                        + ConnectRequest(host, port, literal).value
    ensures r.Ok? ==> |stream.incoming| <= |old(stream.incoming)|
                      && var n := |old(stream.incoming)| - |stream.incoming|;
                         && old(stream.incoming)[n..] == stream.incoming
                         && Accepted(old(stream.incoming)[..n], authenticated)
    ensures r.Err? ==> ConnectRequest(host, port, literal).Err? || ShutsOut(old(stream.incoming), password)
    ensures old(stream.sent) + (if password.Some? then [5, 2, 0, 2] else [5, 1, 0]) <= stream.sent
  {
    hide ConnectRequest, WellFramed, AuthRequest, ReadReply, ParseConnectReply, Grants, Accepted, ShutsOut;
    ghost var s := stream.incoming;
    r, authenticated := Negotiate(stream, password);
    if r.Err? { return; }
    ghost var read := if authenticated then [5, 2, 1, 0] else [5, 0];
    ReadOff(s, read, stream.incoming);
    var request := ConnectRequest(host, port, literal);
    if request.Err? { return Err(request.error), authenticated; }
    stream.WriteAll(request.value);
    var reply := ReadSocks5ConnectReply(stream);
    if reply.Err? { WrongReplyShutsOut(s, password); return Err(reply.error), authenticated; }
    var parsed := ParseConnectReply(reply.value);
    AcceptedIffGranted(reply.value);
    if parsed.Err? { WrongReplyShutsOut(s, password); return Err(parsed.error), authenticated; }
    assert s == (read + reply.value) + stream.incoming;
    ReadOff(s, read + reply.value, stream.incoming);
    GrantedIsAccepted(read, reply.value, authenticated);
    r := Ok(());
  }
}
