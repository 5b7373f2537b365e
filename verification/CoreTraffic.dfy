/** What sending and receiving mean for the user: one message more, in the right place, and nothing else moved. */
module CoreTraffic {
  import opened Wrappers
  import opened Text
  import opened Domain
  import opened Ordering
  import opened CoreState
  import opened CoreInvariant
  import opened CoreOutbox

  /** Which messages wait where, and what their envelopes say, is unchanged but for message `id`. */
  ghost predicate SameWaitingBut(c: Core, d: Core, id: nat) {
    forall a: nat, m: nat :: m != id ==>
                               (d.Waiting(a, m) <==> c.Waiting(a, m))
                               && (c.Waiting(a, m) ==> d.Envelope(m) == c.Envelope(m))
  }

  lemma OutboxGrows(c: Core, d: Core, account: nat, id: nat)
    requires SameWaitingBut(c, d, id) && d.Waiting(account, id)
    requires forall a: nat, m: nat :: c.Waiting(a, m) ==> m < id
    requires forall a: nat :: d.Waiting(a, id) ==> a == account
    ensures Outbox(d, account) == Outbox(c, account) + [d.Envelope(id)]
    ensures forall a: nat :: a != account ==> Outbox(d, a) == Outbox(c, a)
  {
    hide Outbox, Core.Envelope, SameWaitingBut;
    ListsOutbox(c, account);
    var q := Outbox(c, account) + [d.Envelope(id)];
    forall e ensures e in q <==> d.Waiting(account, e.message) && e == d.Envelope(e.message) {
      EnvelopeNamesItsMessage(d, id);
      SameBut(c, d, account, e.message, id);
    }
    forall i | 0 <= i < |Outbox(c, account)| ensures Outbox(c, account)[i].message < id {
      assert Outbox(c, account)[i] in Outbox(c, account);
    }
    EnvelopeNamesItsMessage(d, id);
    OutboxIsUnique(d, account, q);
    forall a: nat | a != account ensures Outbox(d, a) == Outbox(c, a) {
      ListsOutbox(c, a);
      var p := Outbox(c, a);
      forall e ensures e in p <==> d.Waiting(a, e.message) && e == d.Envelope(e.message) {
        SameBut(c, d, a, e.message, id);
      }
      OutboxIsUnique(d, a, p);
    }
  }

  lemma ListsOutbox(c: Core, account: nat)
    ensures var q := Outbox(c, account);
            && Ascending(q, EnvelopeKey, NatLess)
            && forall e :: e in q <==> c.Waiting(account, e.message) && e == c.Envelope(e.message)
  {
  }

  lemma SameBut(c: Core, d: Core, a: nat, m: nat, id: nat)
    requires SameWaitingBut(c, d, id)
    ensures m != id ==> (d.Waiting(a, m) <==> c.Waiting(a, m)) && (c.Waiting(a, m) ==> d.Envelope(m) == c.Envelope(m))
  {
  }

  lemma EnvelopeNamesItsMessage(c: Core, m: nat)
    requires m in c.messages && c.messages[m].conversation in c.conversations
    ensures c.Envelope(m).message == m
  {
  }

  /** Sending puts one message at the end of its account's outbox, addressed to the conversation, with the trimmed
      text and the reply target; every other outbox is as it was. */
  lemma SendAppendsToTheOutbox(c: Core, conversation: nat, sender: string, body: string, inReplyTo: Option<nat>,
                               now: nat)
    requires Inv(c) && c.SendText(conversation, sender, body, inReplyTo, now).result.Ok?
    ensures var sent := c.SendText(conversation, sender, body, inReplyTo, now);
            var v := c.conversations[conversation];
            && Outbox(sent.core, v.account) ==
               Outbox(c, v.account) + [OutgoingMessage(v.account, conversation, sent.result.value, v.kind, v.address,
                                                       Trim(body), inReplyTo)]
            && forall a: nat :: a != v.account ==> Outbox(sent.core, a) == Outbox(c, a)
  {
    hide Inv, Placed, Outbox, Trim;
    InvIsPlaced(c);
    InvIsNumbered(c);
    NextMessageIsNew(c);
    var sent := c.SendText(conversation, sender, body, inReplyTo, now);
    var id := sent.result.value;
    forall a: nat, m: nat | c.Waiting(a, m) ensures m < id {
      MessageIsOld(c, m);
    }
    SendMovesNothingElse(c, conversation, sender, body, inReplyTo, now);
    OutboxGrows(c, sent.core, c.conversations[conversation].account, id);
  }

  lemma MessageIsOld(c: Core, m: nat)
    requires Placed(c) && m in c.messages
    ensures m < FreshId(c.nextMessage)
  {
    assert GoodMessage(c, m);
  }

  lemma SendMovesNothingElse(c: Core, conversation: nat, sender: string, body: string, inReplyTo: Option<nat>, now: nat)
    requires FreshId(c.nextMessage) !in c.messages
    requires c.SendText(conversation, sender, body, inReplyTo, now).result.Ok?
    ensures var sent := c.SendText(conversation, sender, body, inReplyTo, now);
            SameWaitingBut(c, sent.core, sent.result.value)
  {
    hide Trim;
  }

  function Badge(c: Core, v: nat): nat {
    if v in c.conversations then c.conversations[v].unread else 0
  }

  /** Between `c` and `d` the text `e` arrived as message `id`, and nothing else changed but the log. */
  ghost predicate Landed(c: Core, d: Core, e: TransportEvent, id: nat)
    requires e.IncomingText?
  {
    && id !in c.messages && id in d.messages
    && var v := d.messages[id].conversation;
       (&& d.messages == c.messages[id := Message(id, v, e.sender, Trim(e.body), Incoming, TextMessage, e.receivedAt,
                                                  Delivered, None, None)]
        && d.IsConversation(v, e.account, e.conversationKind, e.address)
        && d.conversations.Keys == c.conversations.Keys + {v}
        && (forall w :: w in c.conversations && w != v ==> d.conversations[w] == c.conversations[w])
        && d.conversations[v].lastActivity == e.receivedAt
        && Badge(d, v) == (if Badge(c, v) < MAX_UNREAD then Badge(c, v) + 1 else Badge(c, v))
        && (d.accounts, d.contacts, d.reactions) == (c.accounts, c.contacts, c.reactions))
  }

  /** A text that arrives is stored once, under a new identifier, in a conversation for its account, kind and
      address, whose badge goes up by one unless it is full. */
  lemma ArrivingTextLandsOnce(c: Core, e: TransportEvent)
    requires Inv(c) && e.IncomingText? && e.account in c.accounts && ValidJid(e.address) && CheckedBody(e.body).Ok?
    ensures var after := c.ApplyTransportEvent(e);
            after.result == Ok(Some(FreshId(c.nextMessage))) && Landed(c, after.core, e, FreshId(c.nextMessage))
  {
    hide Inv, Placed, ValidJid, Trim, Split, Core.FindOrCreate, Core.ApplyTransportEvent;
    InvIsPlaced(c);
    InvIsNumbered(c);
    NextMessageIsNew(c);
    TextIsStored(c, e);
    NextConversationIsNew(c);
    TargetIsRight(c, e.account, e.conversationKind, e.address, Split(e.address, '@')[0], e.receivedAt);
  }

  lemma NextConversationIsNew(c: Core)
    requires Placed(c)
    ensures FreshId(c.nextConversation) !in c.conversations
  {
  }

  /** Looking a conversation up, or opening it, changes no other conversation and no badge. */
  lemma TargetIsRight(c: Core, account: nat, kind: ConversationKind, address: string, title: string, now: nat)
    requires FreshId(c.nextConversation) !in c.conversations
    ensures var target := c.FindOrCreate(account, kind, address, title, now);
            && target.result.Ok? && target.core.IsConversation(target.result.value, account, kind, address)
            && target.core.conversations.Keys == c.conversations.Keys + {target.result.value}
            && (forall w :: w in c.conversations ==> target.core.conversations[w] == c.conversations[w])
            && Badge(target.core, target.result.value) == Badge(c, target.result.value)
  {
    hide Core.CreateConversation, Core.HasConversation;
    CreatedIsRight(c, account, kind, address, title, now);
  }

  lemma CreatedIsRight(c: Core, account: nat, kind: ConversationKind, address: string, title: string, now: nat)
    requires FreshId(c.nextConversation) !in c.conversations
    ensures var target := c.CreateConversation(account, kind, address, title, now);
            && target.result.Ok? && target.core.IsConversation(target.result.value, account, kind, address)
            && target.core.conversations.Keys == c.conversations.Keys + {target.result.value}
            && (forall w :: w in c.conversations ==> target.core.conversations[w] == c.conversations[w])
            && Badge(target.core, target.result.value) == Badge(c, target.result.value)
  {
  }

  /** The next text for that address lands in the same conversation, wherever it was sent from. */
  lemma NextTextJoinsIt(c: Core, d: Core, e: TransportEvent, id: nat, next: TransportEvent)
    requires Inv(d) && e.IncomingText? && next.IncomingText? && Landed(c, d, e, id)
    requires (next.account, next.conversationKind, next.address) == (e.account, e.conversationKind, e.address)
    requires e.account in c.accounts && ValidJid(e.address) && CheckedBody(next.body).Ok?
    ensures var again := d.ApplyTransportEvent(next);
            && again.result == Ok(Some(FreshId(d.nextMessage)))
            && FreshId(d.nextMessage) in again.core.messages
            && again.core.messages[FreshId(d.nextMessage)].conversation == d.messages[id].conversation
            && again.core.conversations.Keys == d.conversations.Keys
  {
    hide Inv, ValidJid, Trim, Split;
    InvIsUnambiguous(d);
    LookupIsUnique(d, d.messages[id].conversation, e.account, e.conversationKind, e.address);
    TextIsStored(d, next);
  }

  lemma TextIsStored(c: Core, e: TransportEvent)
    requires e.IncomingText? && e.account in c.accounts && ValidJid(e.address) && CheckedBody(e.body).Ok?
    ensures var after := c.ApplyTransportEvent(e);
            var title := Split(e.address, '@')[0];
            var target := c.FindOrCreate(e.account, e.conversationKind, e.address, title, e.receivedAt);
            && after.result == Ok(Some(FreshId(c.nextMessage)))
            && target.result.Ok? && target.result.value in target.core.conversations
            && after.core.messages ==
               c.messages[FreshId(c.nextMessage) :=
                            Message(FreshId(c.nextMessage), target.result.value, e.sender, Trim(e.body), Incoming,
                                    TextMessage, e.receivedAt, Delivered, None, None)]
            && after.core.conversations ==
               target.core.Touch(target.result.value, e.receivedAt, true).conversations
            && (after.core.accounts, after.core.contacts, after.core.reactions) == (c.accounts, c.contacts, c.reactions)
  {
    hide ValidJid, Trim, Split;
    var target := c.FindOrCreate(e.account, e.conversationKind, e.address, Split(e.address, '@')[0], e.receivedAt);
    if c.HasConversation(e.account, e.conversationKind, e.address) {
      assert c.IsConversation(target.result.value, e.account, e.conversationKind, e.address);
    }
  }
}
