/** Stanza identifiers: the XEP-0184 receipt of a message names exactly that message, and nothing else the client
    sends can be taken for one. */
module ReceiptIds {
  import opened Wrappers
  import opened Text

  const PREFIX: string := "mindchat-"
  const MAX_ID: nat := 0xFFFF_FFFF_FFFF_FFFF

  function MessageStanzaId(message: nat): string {
    PREFIX + Decimal(message)
  }

  function RosterRequestId(account: nat): string {
    PREFIX + "roster-" + Decimal(account)
  }

  function DiscoRequestId(account: nat): string {
    PREFIX + "disco-" + Decimal(account)
  }

  function PingId(counter: nat): string {
    PREFIX + "ping-" + Decimal(counter)
  }

  function ReceiptId(account: nat, now: nat): string {
    PREFIX + "receipt-" + (Decimal(account) + "-" + Decimal(now))
  }

  function RegisterGetId(now: nat): string {
    PREFIX + "register-get-" + Decimal(now)
  }

  function RegisterSetId(now: nat): string {
    PREFIX + "register-set-" + Decimal(now)
  }

  function ParseReceiptMessageId(id: string): Option<nat> {
    if !(PREFIX <= id) then None
    else
      var suffix := id[|PREFIX|..];
      if suffix == "" || !AllDigits(suffix) then None
      else
        var value := DecimalValue(suffix);
        if value > MAX_ID || value == 0 then None else Some(value)
  }

  /** An identifier names a message exactly when it is the prefix and a 64-bit numeral other than zero. */
  lemma ParsesIffNumeral(id: string, message: nat)
    ensures ParseReceiptMessageId(id) == Some(message) <==>
            1 <= message <= 0xFFFF_FFFF_FFFF_FFFF
            && exists digits ::
                 digits != "" && AllDigits(digits) && id == "mindchat-" + digits && DecimalValue(digits) == message
  {
    if digits :| digits != "" && AllDigits(digits) && id == PREFIX + digits && DecimalValue(digits) == message {
      assert id[|PREFIX|..] == digits;
    }
    if PREFIX <= id {
      assert id == PREFIX + id[|PREFIX|..];
    }
  }

  /** The identifier of a message parses back to it, over the whole 64-bit range. */
  lemma ReceiptNamesItsMessage(message: nat)
    ensures ParseReceiptMessageId(MessageStanzaId(message)) ==
            if 1 <= message <= 0xFFFF_FFFF_FFFF_FFFF then Some(message) else None
  {
    DecimalValueOfDecimal(message);
    assert MessageStanzaId(message)[|PREFIX|..] == Decimal(message);
  }

  lemma NotANumeral(word: string, rest: string)
    requires word != "" && !IsDigit(word[0])
    ensures ParseReceiptMessageId(PREFIX + word + rest) == None
  {
    var id := PREFIX + word + rest;
    assert id[|PREFIX|..] == word + rest;
    assert (word + rest)[0] == word[0];
  }

  /** No roster, discovery, ping, receipt or registration identifier is taken for a message. */
  lemma OtherIdsAreNotReceipts(account: nat, counter: nat, now: nat)
    ensures ParseReceiptMessageId(RosterRequestId(account)) == None
    ensures ParseReceiptMessageId(DiscoRequestId(account)) == None
    ensures ParseReceiptMessageId(PingId(counter)) == None
    ensures ParseReceiptMessageId(ReceiptId(account, now)) == None
    ensures ParseReceiptMessageId(RegisterGetId(now)) == None
    ensures ParseReceiptMessageId(RegisterSetId(now)) == None
  {
    NotANumeral("roster-", Decimal(account));
    NotANumeral("disco-", Decimal(account));
    NotANumeral("ping-", Decimal(counter));
    NotANumeral("receipt-", Decimal(account) + "-" + Decimal(now));
    NotANumeral("register-get-", Decimal(now));
    NotANumeral("register-set-", Decimal(now));
  }
}
