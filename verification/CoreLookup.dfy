/** Looking a conversation up in a core that may hold several with the same key: the search reports one of them, in
    whatever order it visits the map. Where keys are unambiguous there is only one answer, the one `CoreState` gives. */
module CoreLookup {
  import opened Wrappers
  import opened Text
  import opened Domain
  import opened CoreState
  import opened CoreInvariant

  /** `id` is a conversation with that key, and nothing has changed; or there was none, and it is the one created. */
  ghost predicate Opens(c: Core, d: Core, id: nat, account: nat, kind: ConversationKind, address: string, title: string,
                        now: nat)
  {
    if c.HasConversation(account, kind, address) then d == c && c.IsConversation(id, account, kind, address)
    else Ret(d, Ok(id)) == c.CreateConversation(account, kind, address, title, now)
  }

  /** A received text is refused or skipped as specified, or stored in some conversation with that key. */
  ghost predicate Receives(c: Core, d: Core, r: Result<Option<nat>, CoreError>, account: nat, kind: ConversationKind,
                           address: string, sender: string, body: string, now: nat)
  {
    if account !in c.accounts || !ValidJid(address) || CheckedBody(body).Err? then
      Ret(d, r) == c.ReceiveTransportText(account, kind, address, sender, body, now)
    else
      exists t, id :: Opens(c, t, id, account, kind, address, Split(address, '@')[0], now)
                      && t.ReceiveText(id, sender, body, now) == Ret(d, Ok(FreshId(t.nextMessage)))
                      && r == Ok(Some(FreshId(t.nextMessage)))
  }

  ghost predicate Applies(c: Core, d: Core, r: Result<Option<nat>, CoreError>, e: TransportEvent) {
    if e.IncomingText? then
      Receives(c, d, r, e.account, e.conversationKind, e.address, e.sender, e.body, e.receivedAt)
    else Ret(d, r) == c.ApplyTransportEvent(e)
  }

  lemma OpensOnlyOne(c: Core, d: Core, id: nat, account: nat, kind: ConversationKind, address: string, title: string,
                     now: nat)
    requires Unambiguous(c) && Opens(c, d, id, account, kind, address, title, now)
    ensures Ret(d, Ok(id)) == c.FindOrCreate(account, kind, address, title, now)
  {
    hide Core.CreateConversation;
    if c.HasConversation(account, kind, address) {
      LookupIsUnique(c, id, account, kind, address);
    }
  }

  lemma ReceivesOnlyOne(c: Core, d: Core, r: Result<Option<nat>, CoreError>, account: nat, kind: ConversationKind,
                        address: string, sender: string, body: string, now: nat)
    requires Unambiguous(c) && Receives(c, d, r, account, kind, address, sender, body, now)
    ensures Ret(d, r) == c.ReceiveTransportText(account, kind, address, sender, body, now)
  {
    hide Opens, Unambiguous, ValidJid, CheckedBody, Split, Core.ReceiveText, Core.FindOrCreate;
    if account in c.accounts && ValidJid(address) && CheckedBody(body).Ok? {
      var title := Split(address, '@')[0];
      var t, id :| Opens(c, t, id, account, kind, address, title, now)
                   && t.ReceiveText(id, sender, body, now) == Ret(d, Ok(FreshId(t.nextMessage)))
                   && r == Ok(Some(FreshId(t.nextMessage)));
      OpensOnlyOne(c, t, id, account, kind, address, title, now);
    }
  }

  /** With unambiguous keys an event has the one outcome specified for it. */
  lemma AppliesOnlyOne(c: Core, d: Core, r: Result<Option<nat>, CoreError>, e: TransportEvent)
    requires Unambiguous(c) && Applies(c, d, r, e)
    ensures Ret(d, r) == c.ApplyTransportEvent(e)
  {
    hide Receives, Unambiguous, Core.ReceiveTransportText;
    if e.IncomingText? {
      ReceivesOnlyOne(c, d, r, e.account, e.conversationKind, e.address, e.sender, e.body, e.receivedAt);
    }
  }

  // ----- what any outcome keeps ------------------------------------------------------------------------------

  lemma OpensKeepsNumbered(c: Core, d: Core, id: nat, account: nat, kind: ConversationKind, address: string,
                           title: string, now: nat)
    requires Numbered(c) && Opens(c, d, id, account, kind, address, title, now)
    ensures Numbered(d)
  {
    hide Core.HasConversation;
  }

  lemma OpensKeepsUnambiguous(c: Core, d: Core, id: nat, account: nat, kind: ConversationKind, address: string,
                              title: string, now: nat)
    requires Unambiguous(c) && Opens(c, d, id, account, kind, address, title, now)
    ensures Unambiguous(d)
  {
    if !c.HasConversation(account, kind, address) {
      forall v | v in c.conversations && v != id ensures !SameKey(d.conversations[v], d.conversations[id]) {
        assert !c.IsConversation(v, account, kind, address);
      }
    }
  }

  lemma SameConversationsStayUnambiguous(c: Core, d: Core)
    requires Unambiguous(c)
    requires forall v :: v in d.conversations ==>
                           v in c.conversations && SameKey(c.conversations[v], d.conversations[v])
    ensures Unambiguous(d)
  {
  }

  lemma ReceiveTextKeepsKeys(c: Core, conversation: nat, sender: string, body: string, now: nat)
    ensures var d := c.ReceiveText(conversation, sender, body, now).core;
            forall v :: v in d.conversations ==> v in c.conversations && SameKey(c.conversations[v], d.conversations[v])
  {
    hide CheckedBody;
  }

  lemma ReceiveTextKeepsNumbered(c: Core, conversation: nat, sender: string, body: string, now: nat)
    requires Numbered(c)
    ensures Numbered(c.ReceiveText(conversation, sender, body, now).core)
  {
    hide CheckedBody;
  }

  lemma EventKeepsUnambiguous(c: Core, e: TransportEvent)
    requires Unambiguous(c)
    ensures Unambiguous(c.ApplyTransportEvent(e).core)
  {
    hide Unambiguous, RosterOnly, ValidJid, CheckedBody, Split, Core.FindOrCreate, Core.ReceiveText;
    match e
    case DeliveryUpdated(account, sender, message, delivery) =>
      SameConversationsStayUnambiguous(c, c.ApplyTransportEvent(e).core);
    case IncomingText(account, kind, address, sender, body, now) =>
      if account in c.accounts && ValidJid(address) && CheckedBody(body).Ok? {
        var title := Split(address, '@')[0];
        var t := c.FindOrCreate(account, kind, address, title, now);
        TargetOpens(c, account, kind, address, title, now);
        OpensKeepsUnambiguous(c, t.core, t.result.value, account, kind, address, title, now);
        ReceiveTextKeepsKeys(t.core, t.result.value, sender, body, now);
        SameConversationsStayUnambiguous(t.core, t.core.ReceiveText(t.result.value, sender, body, now).core);
      }
    case _ =>
      RosterEventIsRosterOnly(c, e);
      RosterKeepsKeys(c, c.ApplyTransportEvent(e).core);
      SameConversationsStayUnambiguous(c, c.ApplyTransportEvent(e).core);
  }

  lemma TextLands(c: Core, conversation: nat, sender: string, body: string, now: nat)
    requires conversation in c.conversations && CheckedBody(body).Ok?
    ensures c.ReceiveText(conversation, sender, body, now).result == Ok(FreshId(c.nextMessage))
  {
    hide CheckedBody;
  }

  lemma RosterKeepsKeys(c: Core, d: Core)
    requires RosterOnly(c, d)
    ensures d.conversations == c.conversations && d.messages == c.messages && d.nextMessage == c.nextMessage
  {
  }

  /** What `CoreState` specifies is one of the outcomes. */
  lemma TargetOpens(c: Core, account: nat, kind: ConversationKind, address: string, title: string, now: nat)
    ensures var t := c.FindOrCreate(account, kind, address, title, now);
            t.result.Ok? && Opens(c, t.core, t.result.value, account, kind, address, title, now)
  {
  }

  lemma AppliesKeepsNumbered(c: Core, d: Core, r: Result<Option<nat>, CoreError>, e: TransportEvent)
    requires Numbered(c) && Applies(c, d, r, e)
    ensures Numbered(d)
  {
    hide Numbered, RosterOnly, Opens, ValidJid, CheckedBody, Split, Core.FindOrCreate, Core.ReceiveText;
    hide Core.ReceiptApplies;
    match e
    case IncomingText(account, kind, address, sender, body, now) =>
      if account in c.accounts && ValidJid(address) && CheckedBody(body).Ok? {
        var title := Split(address, '@')[0];
        var t, id :| Opens(c, t, id, account, kind, address, title, now)
                     && t.ReceiveText(id, sender, body, now) == Ret(d, Ok(FreshId(t.nextMessage)))
                     && r == Ok(Some(FreshId(t.nextMessage)));
        OpensKeepsNumbered(c, t, id, account, kind, address, title, now);
        ReceiveTextKeepsNumbered(t, id, sender, body, now);
      }
    case DeliveryUpdated(account, sender, message, delivery) => DeliveryKeepsNumbered(c, message, delivery);
    case _ =>
      RosterEventIsRosterOnly(c, e);
      RosterKeepsKeys(c, d);
      SameMessagesStayNumbered(c, d);
  }

  lemma DeliveryKeepsNumbered(c: Core, message: nat, delivery: DeliveryState)
    requires Numbered(c)
    ensures Numbered(c.SetDeliveryState(message, delivery).core)
  {
  }

  lemma SameMessagesStayNumbered(c: Core, d: Core)
    requires Numbered(c) && d.messages == c.messages && d.nextMessage == c.nextMessage
    ensures Numbered(d)
  {
  }
}
