/** What a proxy's refusal says: the answer to a CONNECT request, the error it is read as, and the text that error is
    shown and stored as. */
module ProxyRefusal {
  import opened Wrappers
  import opened Text
  import opened Endpoint
  import opened ProxyCodec

  datatype ProxyError =
    | Io(detail: string)
    | InvalidConfig(detail: string)
    | SocksProtocol(detail: string)
    | SocksMethodRejected
    | SocksAuthRejected
    | SocksConnectFailed(reply: nat)
    | HttpStatus(status: nat, reason: string)
    | HttpMalformed(detail: string)

  const SOCKS5_PROXY := "the SOCKS5 proxy "
  const RESPONSE := "the proxy response "
  const METHOD_REJECTED := SOCKS5_PROXY + "rejected every offered " + "authentication method"
  const AUTH_REJECTED := SOCKS5_PROXY + "refused the supplied " + "credentials"
  const CONNECT_FAILED := SOCKS5_PROXY + "refused the tunnel " + "(reply code "
  const TUNNEL_REFUSED := "the HTTP proxy " + "refused the tunnel " + "(status "
  const NOT_UTF8 := RESPONSE + "is not valid " + "UTF-8"
  const NOT_HTTP := RESPONSE + "status line does not " + "start with HTTP/: "
  const NO_STATUS := RESPONSE + "has no parseable " + "status code: "
  const MALFORMED := "malformed " + "HTTP proxy " + "response: "
  const INVALID := "invalid " + "proxy " + "configuration: "

  /** The text of an error. */
  function Rendered(e: ProxyError): string {
    match e
    case Io(detail) => "proxy I/O error: " + detail
    case InvalidConfig(detail) => INVALID + detail
    case SocksProtocol(detail) => "SOCKS5 protocol error: " + detail
    case SocksMethodRejected => METHOD_REJECTED
    case SocksAuthRejected => AUTH_REJECTED
    case SocksConnectFailed(reply) => CONNECT_FAILED + Decimal(reply) + ")"
    case HttpStatus(status, reason) => RefusalText(status, reason)
    case HttpMalformed(detail) => MALFORMED + detail
  }

  /** Which error is shown in which words. */
  lemma WhatErrorsSay(e: ProxyError)
    ensures match e
            case Io(detail) => Rendered(e) == "proxy I/O error: " + detail
            case InvalidConfig(detail) => Rendered(e) == "invalid " + "proxy " + "configuration: " + detail
            case SocksProtocol(detail) => Rendered(e) == "SOCKS5 protocol error: " + detail
            case SocksMethodRejected =>
              Rendered(e) == "the SOCKS5 proxy " + "rejected every offered " + "authentication method"
            case SocksAuthRejected => Rendered(e) == "the SOCKS5 proxy " + "refused the supplied " + "credentials"
            case SocksConnectFailed(reply) =>
              Rendered(e) == "the SOCKS5 proxy " + "refused the tunnel " + "(reply code " + Decimal(reply) + ")"
            case HttpStatus(status, reason) =>
              Rendered(e) == "the HTTP proxy " + "refused the tunnel " + "(status " + Decimal(status)
                             + (if reason == "" then ")" else ": " + reason + ")")
            case HttpMalformed(detail) => Rendered(e) == "malformed " + "HTTP proxy " + "response: " + detail
  {
    hide Decimal;
    if e.HttpStatus? {
      var head := RefusalHead(e.status);
      assert head + ": " + e.reason + ")" == head + (": " + e.reason + ")");
      assert head + "" + "" + ")" == head + ")";
    }
  }

  function RefusalHead(status: nat): string {
    TUNNEL_REFUSED + Decimal(status)
  }

  function RefusalText(status: nat, reason: string): string {
    RefusalHead(status) + (if reason == "" then "" else ": ") + reason + ")"
  }

  /** The part of an error that is not the client's own words. */
  function Wording(e: ProxyError): string {
    match e
    case Io(detail) => detail
    case InvalidConfig(detail) => detail
    case SocksProtocol(detail) => detail
    case HttpStatus(_, reason) => reason
    case HttpMalformed(detail) => detail
    case _ => ""
  }

  lemma DecimalIsFree(n: nat)
    ensures Free(Decimal(n))
  {
    NumeralIsFree(n);
  }

  lemma RefusalHeadIsFree(status: nat)
    ensures Free(RefusalHead(status))
  {
    hide Decimal, Free;
    DecimalIsFree(status);
    TunnelRefusedIsFree();
    FreeConcat(TUNNEL_REFUSED, Decimal(status));
  }

  lemma FreeConcat(a: string, b: string)
    ensures Free(a + b) <==> Free(a) && Free(b)
  {
  }

  lemma PartsAreFree(a: string, b: string, c: string)
    requires Free(a) && Free(b) && Free(c)
    ensures Free(a + b + c)
  {
  }

  lemma MethodRejectedIsFree()
    ensures Free(METHOD_REJECTED)
  {
    PartsAreFree(SOCKS5_PROXY, "rejected every offered ", "authentication method");
  }

  lemma AuthRejectedIsFree()
    ensures Free(AUTH_REJECTED)
  {
    PartsAreFree(SOCKS5_PROXY, "refused the supplied ", "credentials");
  }

  lemma ConnectFailedIsFree()
    ensures Free(CONNECT_FAILED)
  {
    PartsAreFree(SOCKS5_PROXY, "refused the tunnel ", "(reply code ");
  }

  lemma TunnelRefusedIsFree()
    ensures Free(TUNNEL_REFUSED)
  {
    PartsAreFree("the HTTP proxy ", "refused the tunnel ", "(status ");
  }

  lemma NotUtf8IsFree()
    ensures Free(NOT_UTF8)
  {
    PartsAreFree(RESPONSE, "is not valid ", "UTF-8");
  }

  lemma NotHttpIsFree()
    ensures Free(NOT_HTTP)
  {
    PartsAreFree(RESPONSE, "status line does not ", "start with HTTP/: ");
  }

  lemma NoStatusIsFree()
    ensures Free(NO_STATUS)
  {
    PartsAreFree(RESPONSE, "has no parseable ", "status code: ");
  }

  lemma MalformedIsFree()
    ensures Free(MALFORMED)
  {
    PartsAreFree("malformed ", "HTTP proxy ", "response: ");
  }

  lemma InvalidIsFree()
    ensures Free(INVALID)
  {
    PartsAreFree("invalid ", "proxy ", "configuration: ");
  }

  lemma PunctuationIsFree()
    ensures Free("") && Free(": ") && Free(")")
  {
  }

  lemma ProtocolPrefixesAreFree()
    ensures Free("proxy I/O error: ") && Free("SOCKS5 protocol error: ")
  {
  }

  /** A rendered error can be stored exactly if whoever worded it used no separator. */
  lemma RenderedIsFree(e: ProxyError)
    ensures Rendered(e) != ""
    ensures Free(Rendered(e)) <==> Free(Wording(e))
  {
    hide Decimal, RefusalHead, Free;
    PunctuationIsFree();
    ProtocolPrefixesAreFree();
    match e
    case Io(detail) => FreeConcat("proxy I/O error: ", detail);
    case InvalidConfig(detail) =>
      InvalidIsFree();
      FreeConcat(INVALID, detail);
    case SocksProtocol(detail) => FreeConcat("SOCKS5 protocol error: ", detail);
    case SocksMethodRejected => MethodRejectedIsFree();
    case SocksAuthRejected => AuthRejectedIsFree();
    case SocksConnectFailed(reply) =>
      ConnectFailedIsFree();
      DecimalIsFree(reply);
      FreeConcat(CONNECT_FAILED, Decimal(reply));
      FreeConcat(CONNECT_FAILED + Decimal(reply), ")");
    case HttpStatus(status, reason) =>
      var colon := if reason == "" then "" else ": ";
      RefusalHeadIsFree(status);
      FreeConcat(RefusalHead(status), colon);
      FreeConcat(RefusalHead(status) + colon, reason);
      FreeConcat(RefusalHead(status) + colon + reason, ")");
    case HttpMalformed(detail) =>
      MalformedIsFree();
      FreeConcat(MALFORMED, detail);
  }

  // ----- reading the answer ----------------------------------------------------------------------------

  /** What comes before the first line break. */
  function StatusLine(text: string): string {
    if text == "" || (|text| >= 2 && text[0] == '\r' && text[1] == '\n') then "" else [text[0]] + StatusLine(text[1..])
  }

  function Word(words: seq<string>, i: nat): string {
    if i < |words| then words[i] else ""
  }

  /** Reads the answer to a CONNECT request. `text` is the header block if it is UTF-8, and `quoted` the escaped form in
      which the error messages show a status line. */
  function ParseHttpConnectResponse(text: Option<string>, quoted: string -> string): Result<(), ProxyError> {
    if text.None? then Err(HttpMalformed(NOT_UTF8))
    else
      var line := StatusLine(text.value);
      var words := Words(line);
      if !("HTTP/" <= Word(words, 0)) then
        Err(HttpMalformed(NOT_HTTP + quoted(line)))
      else if ParsePort(Word(words, 1)).None? then
        Err(HttpMalformed(NO_STATUS + quoted(line)))
      else if ParsePort(words[1]).value == 200 then Ok(())
      else Err(HttpStatus(ParsePort(words[1]).value, Join(words[2..], ' ')))
  }

  /** How an answer is judged: by the first two words of its first line, a version and a 16-bit status. */
  lemma AnswersAreJudged(line: string, rest: string, quoted: string -> string)
    requires '\r' !in line
    ensures var words := Words(line);
            var answer := ParseHttpConnectResponse(Some(line + "\r\n" + rest), quoted);
            var versioned := words != [] && "HTTP/" <= words[0];
            var status := if |words| > 1 then ParsePort(words[1]) else None;
            var response := "the proxy response ";
            && (answer.Ok? <==> versioned && status == Some(200))
            && (answer.Err? && answer.error.HttpStatus? <==> versioned && status.Some? && status.value != 200)
            && (answer.Err? && answer.error.HttpStatus? ==>
                  answer.error.status == status.value && answer.error.reason == Join(words[2..], ' '))
            && (!versioned ==>
                  answer ==
                  Err(HttpMalformed(response + "status line does not " + "start with HTTP/: " + quoted(line))))
            && (versioned && status == None ==>
                  answer == Err(HttpMalformed(response + "has no parseable " + "status code: " + quoted(line))))
    ensures ParseHttpConnectResponse(None, quoted) ==
            Err(HttpMalformed("the proxy response " + "is not valid " + "UTF-8"))
  {
    hide StatusLine, Words, Join, ParsePort;
    StatusLineOf(line, rest);
    NoPort();
  }

  lemma NoPort()
    ensures ParsePort("") == None
  {
  }

  /** Single spaces between words, and no other whitespace: what reading an answer leaves of its reason. */
  predicate IsPhrase(reason: string) {
    reason == Join(Words(reason), ' ')
  }

  /** An answer with that status and reason. */
  function Answer(status: nat, reason: string): string {
    "HTTP/1.1 " + Decimal(status) + " " + reason + "\r\n\r\n"
  }

  lemma PhraseIsUnbroken(words: seq<string>)
    requires forall w :: w in words ==> IsWord(w)
    ensures '\r' !in Join(words, ' ')
  {
    forall w | w in words ensures '\r' !in w {
      assert !HasWhitespace(w);
    }
    JoinIsFree(words, ' ', '\r');
  }

  lemma {:induction false} StatusLineOf(line: string, rest: string)
    requires '\r' !in line
    ensures StatusLine(line + "\r\n" + rest) == line
  {
    var text := line + "\r\n" + rest;
    if line != "" {
      assert text[0] == line[0] && text[1..] == line[1..] + "\r\n" + rest;
      StatusLineOf(line[1..], rest);
    }
  }

  lemma StatusIsAWord(status: nat)
    requires status <= 65535
    ensures IsWord(Decimal(status)) && ParsePort(Decimal(status)) == Some(status)
  {
    hide Decimal;
    DecimalValueOfDecimal(status);
    assert forall i :: 0 <= i < |Decimal(status)| ==> IsDigit(Decimal(status)[i]);
  }

  /** Every phrase is some proxy's reason. */
  lemma AnswersAreRead(status: nat, reason: string, quoted: string -> string)
    requires status <= 65535 && status != 200 && IsPhrase(reason)
    ensures ParseHttpConnectResponse(Some(Answer(status, reason)), quoted) == Err(HttpStatus(status, reason))
  {
    hide Decimal, Words, ParsePort, StatusLine, Join;
    var words := Words(reason);
    var head := "HTTP/1.1 " + Decimal(status) + " ";
    StatusIsAWord(status);
    WordsAreWords(reason);
    PhraseIsUnbroken(words);
    assert '\r' !in Decimal(status) by {
      assert !HasWhitespace(Decimal(status));
    }
    StatusLineOf(head + reason, "\r\n");
    assert head + reason + "\r\n" + "\r\n" == Answer(status, reason);
    AnswerWords(status, reason);
    assert (["HTTP/1.1", Decimal(status)] + words)[2..] == words;
  }

  lemma AnswerWords(status: nat, reason: string)
    requires status <= 65535
    ensures Words("HTTP/1.1 " + Decimal(status) + " " + reason) == ["HTTP/1.1", Decimal(status)] + Words(reason)
  {
    hide Decimal, Words, ParsePort;
    StatusIsAWord(status);
    var rest := " " + reason;
    assert " " + reason == [' '] + reason;
    SkipBlank(' ', reason);
    NextWord(Decimal(status), rest);
    SkipBlank(' ', Decimal(status) + rest);
    NextWord("HTTP/1.1", [' '] + (Decimal(status) + rest));
    assert "HTTP/1.1" + ([' '] + (Decimal(status) + rest)) == "HTTP/1.1 " + Decimal(status) + " " + reason;
  }

  /** A refusal always carries a 16-bit status other than 200 and a phrase. */
  lemma RefusalsArePhrases(text: Option<string>, quoted: string -> string)
    ensures match ParseHttpConnectResponse(text, quoted)
            case Err(HttpStatus(status, reason)) => status <= 65535 && status != 200 && IsPhrase(reason)
            case _ => true
  {
    hide Words, StatusLine, Join;
    if text.Some? {
      var words := Words(StatusLine(text.value));
      WordsAreWords(StatusLine(text.value));
      if |words| >= 2 {
        assert forall w :: w in words[2..] ==> w in words;
        WordsOfJoin(words[2..]);
      }
    }
  }

  /** So the reasons a proxy can give are exactly the phrases. */
  lemma ReasonsAreThePhrases(status: nat, reason: string, quoted: string -> string)
    ensures (exists text :: ParseHttpConnectResponse(text, quoted) == Err(HttpStatus(status, reason)))
            <==> status <= 65535 && status != 200 && IsPhrase(reason)
  {
    hide ParseHttpConnectResponse, IsPhrase;
    if text :| ParseHttpConnectResponse(text, quoted) == Err(HttpStatus(status, reason)) {
      RefusalsArePhrases(text, quoted);
    }
    if status <= 65535 && status != 200 && IsPhrase(reason) {
      AnswersAreRead(status, reason, quoted);
    }
  }

  /** The reason of a refusal; any other answer has none. */
  function ReasonOf(answer: Result<(), ProxyError>): string {
    match answer
    case Err(HttpStatus(_, reason)) => reason
    case _ => ""
  }

  /** An answer leaves an error that can be stored exactly if its reason holds no separator: a status line is shown
      escaped. */
  lemma OnlyReasonsCarrySeparators(text: Option<string>, quoted: string -> string)
    requires forall line :: Free(quoted(line))
    ensures var answer := ParseHttpConnectResponse(text, quoted);
            answer.Err? ==> (Free(Rendered(answer.error)) <==> Free(ReasonOf(answer)))
  {
    hide Words, StatusLine, Join, ParsePort, Rendered, Free;
    var answer := ParseHttpConnectResponse(text, quoted);
    PunctuationIsFree();
    NotUtf8IsFree();
    NotHttpIsFree();
    NoStatusIsFree();
    if answer.Err? {
      RenderedIsFree(answer.error);
      if text.Some? {
        var shown := quoted(StatusLine(text.value));
        FreeConcat(NOT_HTTP, shown);
        FreeConcat(NO_STATUS, shown);
      }
    }
  }

  // ----- a reason that spells an entry -----------------------------------------------------------------

  function SpelledFields(e: ProxyLibraryEntry): seq<string> {
    [e.id, e.host, Numeral(e.port), KindName(e.kind)]
  }

  /** `lead`, then an untested entry as a record of four fields, with or without a separator after the last. */
  function Spelling(lead: string, e: ProxyLibraryEntry, closed: bool): string {
    lead + [RECORD_SEP] + Join(SpelledFields(e), FIELD_SEP) + (if closed then [FIELD_SEP] else "")
  }

  lemma SpellingsAreNotFree(lead: string, e: ProxyLibraryEntry, closed: bool)
    ensures !Free(Spelling(lead, e, closed))
  {
    hide Join, SpelledFields;
    assert Spelling(lead, e, closed)[|lead|] == RECORD_SEP;
  }

  /** Any entry one could configure can be spelled. */
  lemma SpellingsArePhrases(lead: string, e: ProxyLibraryEntry, closed: bool)
    requires !HasWhitespace(lead) && !HasWhitespace(e.id) && !HasWhitespace(e.host)
    ensures IsPhrase(Spelling(lead, e, closed))
  {
    hide Join, Words, Numeral;
    var fields := SpelledFields(e);
    NumeralCharacters(e.port);
    NumeralIsUnbroken(e.port);
    assert !HasWhitespace(KindName(e.kind));
    assert forall f :: f in fields ==> !HasWhitespace(f);
    forall c | IsWhitespace(c) ensures c !in Join(fields, FIELD_SEP) {
      forall f | f in fields ensures c !in f {
        assert !HasWhitespace(f);
      }
      JoinIsFree(fields, FIELD_SEP, c);
    }
    var s := Spelling(lead, e, closed);
    forall i | 0 <= i < |s| ensures !IsWhitespace(s[i]) {
      assert s[i] in s;
      assert s[i] in lead || s[i] == RECORD_SEP || s[i] in Join(fields, FIELD_SEP) || s[i] == FIELD_SEP;
    }
    OneWordIsAPhrase(s);
  }

  lemma NumeralIsUnbroken(n: int)
    ensures !HasWhitespace(Numeral(n))
  {
    hide Numeral;
    NumeralCharacters(n);
    assert forall i :: 0 <= i < |Numeral(n)| ==> Numeral(n)[i] in Numeral(n);
  }

  lemma OneWordIsAPhrase(w: string)
    requires IsWord(w)
    ensures IsPhrase(w)
  {
    NextWord(w, "");
    assert w + "" == w && Words("") == [];
  }

  /** The frame around the reason closes it with a bracket. After a separator the bracket is a latency that does not
      parse, and the spelled entry is restored; without one it spoils the kind, and the record is dropped. */
  lemma SpelledRecordDecodes(e: ProxyLibraryEntry, closed: bool)
    requires StorableEntry(e)
    ensures DecodeProxyEntry(Join(SpelledFields(e), FIELD_SEP) + (if closed then [FIELD_SEP] else "") + ")") ==
            if closed then Some(ProxyLibraryEntry(e.id, e.host, e.port, e.kind, Untested)) else None
  {
    hide Join, Split, ParseNumeral, Numeral;
    var fields := SpelledFields(e);
    NumeralIsFree(e.port);
    ParseOfNumeral(e.port, MIN_INT, MAX_INT);
    if closed {
      JoinSnoc(fields, ")", FIELD_SEP);
      SplitOfJoin(fields + [")"], FIELD_SEP);
      assert Join(fields, FIELD_SEP) + [FIELD_SEP] + ")" == Join(fields + [")"], FIELD_SEP);
      BracketIsNoNumeral();
    } else {
      var spoiled := fields[..3] + [KindName(e.kind) + ")"];
      JoinSnoc(fields[..3], KindName(e.kind), FIELD_SEP);
      JoinSnoc(fields[..3], KindName(e.kind) + ")", FIELD_SEP);
      assert fields[..3] + [KindName(e.kind)] == fields;
      assert Join(fields, FIELD_SEP) + "" + ")" == Join(spoiled, FIELD_SEP);
      SplitOfJoin(spoiled, FIELD_SEP);
      assert KindNamed(KindName(e.kind) + ")") == None;
    }
  }

  lemma BracketIsNoNumeral()
    ensures ParseNumeral(")", MIN_LONG, MAX_LONG) == None
  {
    assert !IsDigit(")"[0]);
  }

  /** An entry probed through a proxy whose refusal spells another one restores with its own error cut short, and then
      with the spelled entry exactly if the spelling ends in a separator. */
  lemma ErrorTextCanAddAnEntry(probed: ProxyLibraryEntry, status: nat, lead: string, e: ProxyLibraryEntry, closed: bool)
    requires probed.status.error == Some(RefusalText(status, Spelling(lead, e, closed)))
    requires StorableEntry(e) && Free(lead)
    ensures Restored(probed) ==
            [probed.(status := probed.status.(error := Some(RefusalHead(status) + ": " + lead)))]
            + if closed then [ProxyLibraryEntry(e.id, e.host, e.port, e.kind, Untested)] else []
  {
    hide Split, Join, Numeral, RefusalHead, StorableEntry, DecodeProxyEntry, Free;
    var kept := RefusalHead(status) + ": " + lead;
    var record := Join(SpelledFields(e), FIELD_SEP) + (if closed then [FIELD_SEP] else "") + ")";
    SpelledFieldsAreFree(e);
    RefusalHeadIsFree(status);
    KeptIsFree(RefusalHead(status), lead);
    assert ErrorText(probed) == kept + [RECORD_SEP] + record;
    RecordIsOne(e, closed);
    SplitAtFirst(kept, RECORD_SEP, record);
    SplitPiecesAreFree(record, RECORD_SEP);
    SplitPiecesAreFree(kept, FIELD_SEP);
    assert Split(ErrorText(probed), RECORD_SEP) == [kept, record];
    SpelledRecordDecodes(e, closed);
    assert [kept, record][1..] == [record] && [record][1..] == [];
    assert DecodeAll([]) == [];
    assert DecodeAll([record]) == if closed then [ProxyLibraryEntry(e.id, e.host, e.port, e.kind, Untested)] else [];
    assert Cut(ErrorText(probed)) == Some(kept);
  }

  lemma KeptIsFree(head: string, lead: string)
    requires Free(head) && Free(lead)
    ensures FIELD_SEP !in head + ": " + lead && RECORD_SEP !in head + ": " + lead
  {
  }

  lemma SpelledFieldsAreFree(e: ProxyLibraryEntry)
    requires StorableEntry(e)
    ensures forall f :: f in SpelledFields(e) ==> Free(f)
  {
    hide Numeral;
    NumeralIsFree(e.port);
  }

  lemma RecordIsOne(e: ProxyLibraryEntry, closed: bool)
    requires StorableEntry(e)
    ensures RECORD_SEP !in Join(SpelledFields(e), FIELD_SEP) + (if closed then [FIELD_SEP] else "") + ")"
  {
    hide Numeral, Join, KindName;
    SpelledFieldsAreFree(e);
    assert forall i :: 0 <= i < 4 ==> SpelledFields(e)[i] in SpelledFields(e);
    JoinIsFree(SpelledFields(e), FIELD_SEP, RECORD_SEP);
  }
}
