/** Delivery states never regress, and a flush changes exactly the messages it handed to the transport. */
module CoreDelivery {
  import opened Wrappers
  import opened Text
  import opened Domain
  import opened Ordering
  import opened CoreState
  import opened CoreInvariant
  import opened CoreOutbox

  function RankOf(c: Core, m: nat): nat
    requires m in c.messages
  {
    DeliveryRank(c.messages[m].delivery)
  }

  /** No message of both states has a weaker delivery state in the later one. */
  ghost predicate Advances(c: Core, d: Core) {
    forall m :: m in c.messages && m in d.messages ==> RankOf(c, m) <= RankOf(d, m)
  }

  lemma AdvancesTransitive(c: Core, d: Core, e: Core)
    requires Numbered(c) && Succeeds(d, e) && Succeeds(c, d)
    requires Advances(c, d) && Advances(d, e)
    ensures Advances(c, e)
  {
  }

  lemma SameMessagesAdvance(c: Core, d: Core)
    requires forall m :: m in c.messages && m in d.messages ==> d.messages[m] == c.messages[m]
    ensures Advances(c, d)
  {
  }

  lemma RosterChangeAdvances(c: Core, d: Core)
    requires RosterOnly(c, d)
    ensures Advances(c, d)
  {
  }

  lemma AddMessageAdvances(c: Core, m: Message, now: nat)
    requires m.conversation in c.conversations && m.id !in c.messages
    ensures Advances(c, c.AddMessage(m, now).core)
  {
  }

  lemma ReceiveTextAdvances(c: Core, conversation: nat, sender: string, body: string, now: nat)
    requires FreshId(c.nextMessage) !in c.messages
    ensures Advances(c, c.ReceiveText(conversation, sender, body, now).core)
  {
    hide Advances;
    SameMessagesAdvance(c, c);
    if c.ReceiveText(conversation, sender, body, now).result.Ok? {
      AddMessageAdvances(c, Message(FreshId(c.nextMessage), conversation, sender, CheckedBody(body).value, Incoming,
                                    TextMessage, now, Delivered, None, None), now);
    }
  }

  lemma SendTextAdvances(c: Core, conversation: nat, sender: string, body: string, inReplyTo: Option<nat>, now: nat)
    requires FreshId(c.nextMessage) !in c.messages
    ensures Advances(c, c.SendText(conversation, sender, body, inReplyTo, now).core)
  {
    hide Advances;
    SameMessagesAdvance(c, c);
    if c.SendText(conversation, sender, body, inReplyTo, now).result.Ok? {
      AddMessageAdvances(c, Message(FreshId(c.nextMessage), conversation, sender, CheckedBody(body).value, Outgoing,
                                    TextMessage, now, Pending, inReplyTo, None), now);
    }
  }

  lemma FindOrCreateKeepsMessages(c: Core, account: nat, kind: ConversationKind, address: string, title: string,
                                  now: nat)
    ensures var d := c.FindOrCreate(account, kind, address, title, now).core;
            d.messages == c.messages && d.nextMessage == c.nextMessage
  {
    hide Core.HasConversation;
  }

  /** Advancing only reads the messages. */
  lemma AdvancesFromSame(b: Core, c: Core, d: Core)
    requires b.messages == c.messages && Advances(c, d)
    ensures Advances(b, d)
  {
  }

  lemma ReceiveTransportTextAdvances(c: Core, account: nat, kind: ConversationKind, address: string, sender: string,
                                     body: string, now: nat)
    requires FreshId(c.nextMessage) !in c.messages
    ensures Advances(c, c.ReceiveTransportText(account, kind, address, sender, body, now).core)
  {
    hide Advances, ValidJid, CheckedBody, Split, Core.FindOrCreate, Core.ReceiveText;
    SameMessagesAdvance(c, c);
    if account in c.accounts && ValidJid(address) && CheckedBody(body).Ok? {
      var title := Split(address, '@')[0];
      var target := c.FindOrCreate(account, kind, address, title, now);
      FindOrCreateKeepsMessages(c, account, kind, address, title, now);
      TargetIsFound(c, account, kind, address, title, now);
      ReceiveTextAdvances(target.core, target.result.value, sender, body, now);
      AdvancesFromSame(c, target.core, target.core.ReceiveText(target.result.value, sender, body, now).core);
    }
  }

  lemma DeleteConversationAdvances(c: Core, conversation: nat)
    ensures Advances(c, c.DeleteConversation(conversation).core)
  {
    hide Advances;
    SameMessagesAdvance(c, c.DeleteConversation(conversation).core);
  }

  lemma DeleteAccountAdvances(c: Core, account: nat)
    ensures Advances(c, c.DeleteAccount(account).core)
  {
    hide Advances;
    SameMessagesAdvance(c, c.DeleteAccount(account).core);
  }

  lemma TransportEventAdvances(c: Core, e: TransportEvent)
    requires Numbered(c)
    ensures Advances(c, c.ApplyTransportEvent(e).core)
  {
    hide Numbered, Advances, RosterOnly, Core.ReceiveTransportText, Core.ApplyDeliveryUpdate;
    NextMessageIsNew(c);
    match e
    case DeliveryUpdated(account, sender, message, delivery) =>
      DeliveryUpdateAdvances(c, account, sender, message, delivery);
    case IncomingText(account, kind, address, sender, body, receivedAt) =>
      ReceiveTransportTextAdvances(c, account, kind, address, sender, body, receivedAt);
    case _ =>
      RosterEventIsRosterOnly(c, e);
      RosterChangeAdvances(c, c.ApplyTransportEvent(e).core);
  }

  lemma DeliveryUpdateAdvances(c: Core, account: nat, sender: string, message: nat, delivery: DeliveryState)
    ensures Advances(c, c.ApplyDeliveryUpdate(account, sender, message, delivery).core)
  {
  }

  /** Every operation but a bare `SetDeliveryState`, which only a flush issues, keeps or strengthens every
      delivery state. */
  lemma OpAdvances(c: Core, op: Op)
    requires Numbered(c) && !op.OpSetDeliveryState?
    ensures Advances(c, Perform(c, op).core)
  {
    hide Numbered, Advances, RosterOnly, Core.ApplyTransportEvent, Core.SendText, Core.ReceiveText, Core.Attach;
    hide ValidJid, Trim, Core.FindOrCreate, Core.CapabilityError, Core.DeleteConversation, Core.DeleteAccount;
    NextMessageIsNew(c);
    match op
    case OpTransportEvent(event) => TransportEventAdvances(c, event);
    case OpSendText(conversation, sender, body, inReplyTo, now) =>
      SendTextAdvances(c, conversation, sender, body, inReplyTo, now);
    case OpReceiveText(conversation, sender, body, now) => ReceiveTextAdvances(c, conversation, sender, body, now);
    case OpAttach(message, kind, attachment) => AttachAdvances(c, message, kind, attachment);
    case OpOpenConversation(account, kind, address, title, now) =>
      FindOrCreateKeepsMessages(c, account, kind, address, title, now);
      SameMessagesAdvance(c, Perform(c, op).core);
    case OpMarkConversationRead(_) => SameMessagesAdvance(c, Perform(c, op).core);
    case OpAddReaction(_, _, _) => SameMessagesAdvance(c, Perform(c, op).core);
    case OpDeleteConversation(conversation) => DeleteConversationAdvances(c, conversation);
    case OpDeleteAccount(account) => DeleteAccountAdvances(c, account);
    case _ =>
      RosterOpIsRosterOnly(c, op);
      RosterChangeAdvances(c, Perform(c, op).core);
  }

  lemma AttachAdvances(c: Core, message: nat, kind: MessageKind, attachment: Attachment)
    ensures Advances(c, c.Attach(message, kind, attachment).core)
  {
  }

  // ----- flushing -----------------------------------------------------------------------------

  const FLUSH_OUTBOX_MAX_BATCH: nat := 16

  /** The operations of a flush that had `sent` messages accepted, and the next one refused if `failed`. */
  function MarkOps(batch: seq<OutgoingMessage>, sent: nat, failed: bool): (ops: seq<Op>)
    requires sent <= |batch| && (failed ==> sent < |batch|)
    decreases sent
  {
    if sent == 0 then if failed then [OpSetDeliveryState(batch[0].message, SendFailed)] else []
    else [OpSetDeliveryState(batch[0].message, Sent)] + MarkOps(batch[1..], sent - 1, failed)
  }

  predicate Listed(batch: seq<OutgoingMessage>, m: nat) {
    exists i :: 0 <= i < |batch| && batch[i].message == m
  }

  /** What a flush does to one message. */
  function Marked(m: Message, batch: seq<OutgoingMessage>, sent: nat, failed: bool): Message
    requires sent <= |batch| && (failed ==> sent < |batch|)
  {
    if Listed(batch[..sent], m.id) then m.(delivery := Sent)
    else if failed && m.id == batch[sent].message then m.(delivery := SendFailed)
    else m
  }

  /** A flush marks exactly the accepted prefix Sent and at most one further message Failed; every other message,
      and everything that is not a message, is left as it was. */
  lemma {:induction false} FlushEffect(c: Core, batch: seq<OutgoingMessage>, sent: nat, failed: bool)
    requires sent <= |batch| && (failed ==> sent < |batch|)
    requires forall i :: 0 <= i < |batch| ==> batch[i].message in c.messages
    requires forall m :: m in c.messages ==> c.messages[m].id == m
    requires Ascending(batch, EnvelopeKey, NatLess)
    ensures var d := RunOps(c, MarkOps(batch, sent, failed));
            && d.messages == (map m | m in c.messages :: Marked(c.messages[m], batch, sent, failed))
            && d == c.(messages := d.messages, events := d.events)
            && |d.events| == |c.events| + sent + if failed then 1 else 0
    decreases sent
  {
    hide Perform, Marked;
    if sent == 0 {
      MarkedFirst(c, batch, failed);
      if failed {
        FlushStep(c, batch[0].message, SendFailed);
        RunOne(c, OpSetDeliveryState(batch[0].message, SendFailed));
      }
    } else {
      var next := Perform(c, OpSetDeliveryState(batch[0].message, Sent)).core;
      FlushStep(c, batch[0].message, Sent);
      FlushEffect(next, batch[1..], sent - 1, failed);
      MarkedAll(c, next, batch, sent, failed);
      assert MarkOps(batch, sent, failed)[1..] == MarkOps(batch[1..], sent - 1, failed);
    }
  }

  lemma MarkedFirst(c: Core, batch: seq<OutgoingMessage>, failed: bool)
    requires failed ==> batch != [] && batch[0].message in c.messages
    requires forall m :: m in c.messages ==> c.messages[m].id == m
    ensures (map m | m in c.messages :: Marked(c.messages[m], batch, 0, failed)) ==
            if failed then c.messages[batch[0].message := c.messages[batch[0].message].(delivery := SendFailed)]
            else c.messages
  {
  }

  lemma MarkedAll(c: Core, next: Core, batch: seq<OutgoingMessage>, sent: nat, failed: bool)
    requires 0 < sent <= |batch| && (failed ==> sent < |batch|)
    requires batch[0].message in c.messages && (forall m :: m in c.messages ==> c.messages[m].id == m)
    requires Ascending(batch, EnvelopeKey, NatLess)
    requires next.messages == c.messages[batch[0].message := c.messages[batch[0].message].(delivery := Sent)]
    ensures (map m | m in next.messages :: Marked(next.messages[m], batch[1..], sent - 1, failed)) ==
            (map m | m in c.messages :: Marked(c.messages[m], batch, sent, failed))
  {
    hide Marked;
    forall m | m in c.messages
      ensures Marked(next.messages[m], batch[1..], sent - 1, failed) == Marked(c.messages[m], batch, sent, failed)
    {
      MarkedStep(c.messages[m], batch, sent, failed);
    }
  }

  lemma FlushStep(c: Core, m: nat, delivery: DeliveryState)
    requires m in c.messages
    ensures Perform(c, OpSetDeliveryState(m, delivery)).core ==
            c.PutMessage(m, c.messages[m].(delivery := delivery))
  {
  }

  lemma RunOne(c: Core, op: Op)
    ensures RunOps(c, [op]) == Perform(c, op).core
  {
    hide Perform;
    assert [op][1..] == [];
  }

  lemma MarkedStep(m: Message, batch: seq<OutgoingMessage>, sent: nat, failed: bool)
    requires 0 < sent <= |batch| && (failed ==> sent < |batch|)
    requires Ascending(batch, EnvelopeKey, NatLess)
    ensures Marked(if m.id == batch[0].message then m.(delivery := Sent) else m, batch[1..], sent - 1, failed) ==
            Marked(m, batch, sent, failed)
  {
    var rest := batch[1..];
    assert batch[..sent] == [batch[0]] + rest[..sent - 1];
    if Listed(rest[..sent - 1], m.id) {
      var i :| 0 <= i < sent - 1 && rest[..sent - 1][i].message == m.id;
      assert batch[..sent][i + 1].message == m.id;
    }
    if Listed(batch[..sent], m.id) && m.id != batch[0].message {
      var i :| 0 <= i < sent && batch[..sent][i].message == m.id;
      assert rest[..sent - 1][i - 1].message == m.id;
    }
    if m.id == batch[0].message {
      assert batch[..sent][0].message == m.id;
      if failed {
        assert NatLess(EnvelopeKey(batch[0]), EnvelopeKey(batch[sent]));
      }
    }
  }

  lemma MarkedAdvances(m: Message, batch: seq<OutgoingMessage>, sent: nat, failed: bool)
    requires sent <= |batch| && (failed ==> sent < |batch|)
    requires Listed(batch, m.id) ==> Queued(m)
    ensures DeliveryRank(m.delivery) <= DeliveryRank(Marked(m, batch, sent, failed).delivery)
  {
    if Listed(batch[..sent], m.id) {
      var i :| 0 <= i < sent && batch[..sent][i].message == m.id;
      assert batch[i].message == m.id;
    }
  }

  lemma OutboxIsQueued(c: Core, account: nat)
    ensures var q := Outbox(c, account);
            && (forall i :: 0 <= i < |q| ==> q[i].message in c.messages && c.Waiting(account, q[i].message)
                                             && q[i].account == account)
            && (forall m :: c.Waiting(account, m) ==> Listed(q, m))
  {
    var q := Outbox(c, account);
    assert forall i :: 0 <= i < |q| ==> q[i] in q;
    forall m | c.Waiting(account, m) ensures Listed(q, m) {
      assert c.Envelope(m) in q;
    }
  }

  /** Sending or failing to send what waits never weakens a delivery state. */
  lemma FlushAdvances(c: Core, account: nat, sent: nat, failed: bool)
    requires Numbered(c)
    requires var q := Outbox(c, account); sent <= |q| && (failed ==> sent < |q|)
    ensures Advances(c, RunOps(c, MarkOps(Outbox(c, account), sent, failed)))
  {
    hide Outbox, RunOps, MarkOps, Marked;
    var q := Outbox(c, account);
    OutboxIsQueued(c, account);
    OutboxAscends(c, account);
    FlushEffect(c, q, sent, failed);
    forall m | m in c.messages
      ensures RankOf(c, m) <= DeliveryRank(Marked(c.messages[m], q, sent, failed).delivery)
    {
      MarkedAdvances(c.messages[m], q, sent, failed);
    }
  }

  lemma OutboxAscends(c: Core, account: nat)
    ensures Ascending(Outbox(c, account), EnvelopeKey, NatLess)
  {
  }
}
