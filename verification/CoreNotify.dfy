/** Every change the user interface must see is announced: whatever happens between two drains of the event log,
    each record that was added, changed or removed is covered by an event for it or for a record that owns it. */
module CoreNotify {
  import opened Wrappers
  import opened Text
  import opened Domain
  import opened CoreState
  import opened CoreInvariant

  predicate Changed<K, V(==)>(before: map<K, V>, after: map<K, V>, k: K) {
    (k in before) != (k in after) || (k in before && before[k] != after[k])
  }

  predicate ContactCovered(k: (nat, string), log: seq<CoreEvent>) {
    RosterChanged(k.0) in log || AccountChanged(k.0) in log
  }

  predicate ConversationCovered(c: Core, v: nat, log: seq<CoreEvent>) {
    v in c.conversations && (ConversationChanged(v) in log || AccountChanged(c.conversations[v].account) in log)
  }

  predicate MessageCovered(c: Core, m: nat, log: seq<CoreEvent>) {
    m in c.messages
    && (MessageAdded(m) in log || MessageChanged(m) in log || ConversationCovered(c, c.messages[m].conversation, log))
  }

  predicate ReactionCovered(c: Core, r: nat, log: seq<CoreEvent>) {
    r in c.reactions && MessageCovered(c, c.reactions[r].message, log)
  }

  ghost predicate AccountsNotified(c: Core, d: Core, log: seq<CoreEvent>) {
    && (forall a :: Changed(c.accounts, d.accounts, a) ==> AccountChanged(a) in log)
    && (forall k :: Changed(c.contacts, d.contacts, k) ==> ContactCovered(k, log))
  }

  ghost predicate TalkNotified(c: Core, d: Core, log: seq<CoreEvent>) {
    && (forall v :: Changed(c.conversations, d.conversations, v) ==>
                      ConversationCovered(c, v, log) || ConversationCovered(d, v, log))
    && (forall m :: Changed(c.messages, d.messages, m) ==> MessageCovered(c, m, log) || MessageCovered(d, m, log))
    && (forall r :: Changed(c.reactions, d.reactions, r) ==> ReactionCovered(c, r, log) || ReactionCovered(d, r, log))
  }

  /** Each change from `c` to `d` is covered by an event of `log`. */
  ghost predicate Notified(c: Core, d: Core, log: seq<CoreEvent>) {
    AccountsNotified(c, d, log) && TalkNotified(c, d, log)
  }

  /** `d` extends the event log of `c` by events that cover every change. */
  ghost predicate Announces(c: Core, d: Core) {
    c.events <= d.events && Notified(c, d, d.events[|c.events|..])
  }

  // ----- composition ----------------------------------------------------------------------

  lemma CoverageGrows(c: Core, log: seq<CoreEvent>, more: seq<CoreEvent>)
    requires forall e :: e in log ==> e in more
    ensures forall v :: ConversationCovered(c, v, log) ==> ConversationCovered(c, v, more)
    ensures forall m :: MessageCovered(c, m, log) ==> MessageCovered(c, m, more)
    ensures forall r :: ReactionCovered(c, r, log) ==> ReactionCovered(c, r, more)
  {
  }

  /** Coverage does not depend on which of two states with the same record it is read in: owners are fixed. */
  lemma CoverageMoves(c: Core, d: Core, log: seq<CoreEvent>)
    requires Placed(c) && Placed(d) && Succeeds(c, d)
    ensures forall v :: v in c.conversations && v in d.conversations ==>
                          (ConversationCovered(c, v, log) <==> ConversationCovered(d, v, log))
    ensures forall m :: m in c.messages && m in d.messages ==>
              (MessageCovered(c, m, log) <==> MessageCovered(d, m, log))
    ensures forall r :: r in c.reactions && r in d.reactions ==>
              (ReactionCovered(c, r, log) <==> ReactionCovered(d, r, log))
  {
    forall v | v in c.conversations && v in d.conversations
      ensures ConversationCovered(c, v, log) <==> ConversationCovered(d, v, log)
    {
      assert GoodConversation(c, v);
    }
    forall m | m in c.messages && m in d.messages ensures MessageCovered(c, m, log) <==> MessageCovered(d, m, log) {
      assert GoodMessage(c, m) && GoodMessage(d, m);
    }
    forall r | r in c.reactions && r in d.reactions ensures ReactionCovered(c, r, log) <==> ReactionCovered(d, r, log) {
      assert GoodReaction(c, r) && GoodReaction(d, r);
    }
  }

  lemma TalkNotifiedComposes(c: Core, d: Core, e: Core, log: seq<CoreEvent>)
    requires Placed(c) && Placed(d) && Placed(e) && Succeeds(c, d) && Succeeds(d, e) && Succeeds(c, e)
    requires TalkNotified(c, d, log) && TalkNotified(d, e, log)
    ensures TalkNotified(c, e, log)
  {
    hide Placed, Succeeds, ConversationCovered, MessageCovered, ReactionCovered;
    CoverageMoves(c, d, log);
    CoverageMoves(d, e, log);
    CoveredIsPresent(c, log);
    CoveredIsPresent(d, log);
    CoveredIsPresent(e, log);
    forall v | Changed(c.conversations, e.conversations, v)
      ensures ConversationCovered(c, v, log) || ConversationCovered(e, v, log)
    {
      assert Changed(c.conversations, d.conversations, v) || Changed(d.conversations, e.conversations, v);
    }
    forall m | Changed(c.messages, e.messages, m) ensures MessageCovered(c, m, log) || MessageCovered(e, m, log) {
      assert Changed(c.messages, d.messages, m) || Changed(d.messages, e.messages, m);
    }
    forall r | Changed(c.reactions, e.reactions, r) ensures ReactionCovered(c, r, log) || ReactionCovered(e, r, log) {
      assert Changed(c.reactions, d.reactions, r) || Changed(d.reactions, e.reactions, r);
    }
  }

  lemma CoveredIsPresent(c: Core, log: seq<CoreEvent>)
    ensures forall v :: ConversationCovered(c, v, log) ==> v in c.conversations
    ensures forall m :: MessageCovered(c, m, log) ==> m in c.messages
    ensures forall r :: ReactionCovered(c, r, log) ==> r in c.reactions
  {
  }

  lemma TalkNotifiedGrows(c: Core, d: Core, log: seq<CoreEvent>, more: seq<CoreEvent>)
    requires TalkNotified(c, d, log) && (forall e :: e in log ==> e in more)
    ensures TalkNotified(c, d, more)
  {
    CoverageGrows(c, log, more);
    CoverageGrows(d, log, more);
  }

  lemma AnnouncesComposes(c: Core, d: Core, e: Core)
    requires Inv(c) && Inv(d) && Inv(e) && Succeeds(c, d) && Succeeds(d, e)
    requires Announces(c, d) && Announces(d, e)
    ensures Announces(c, e)
  {
    hide Placed, Succeeds, Unambiguous, UnreadBounded, TalkNotified;
    var log := e.events[|c.events|..];
    assert log == d.events[|c.events|..] + e.events[|d.events|..];
    SucceedsTransitive(c, d, e);
    TalkNotifiedGrows(c, d, d.events[|c.events|..], log);
    TalkNotifiedGrows(d, e, e.events[|d.events|..], log);
    TalkNotifiedComposes(c, d, e, log);
    forall a | Changed(c.accounts, e.accounts, a) ensures AccountChanged(a) in log {
      assert Changed(c.accounts, d.accounts, a) || Changed(d.accounts, e.accounts, a);
    }
    forall k | Changed(c.contacts, e.contacts, k) ensures ContactCovered(k, log) {
      assert Changed(c.contacts, d.contacts, k) || Changed(d.contacts, e.contacts, k);
    }
  }

  // ----- single operations ------------------------------------------------------------------

  /** The events of one operation are at the end of the log. */
  lemma AnnouncesBy(c: Core, d: Core, log: seq<CoreEvent>)
    requires d.events == c.events + log && Notified(c, d, log)
    ensures Announces(c, d)
  {
    assert d.events[|c.events|..] == log;
  }

  lemma UnchangedAnnounces(c: Core)
    ensures Announces(c, c)
  {
  }

  lemma PutAccountAnnounces(c: Core, d: Core, account: nat)
    requires d.contacts == c.contacts && d.conversations == c.conversations && d.messages == c.messages
             && d.reactions == c.reactions && d.events == c.events + [AccountChanged(account)]
    requires forall a :: a != account ==> !Changed(c.accounts, d.accounts, a)
    ensures Announces(c, d)
  {
    AnnouncesBy(c, d, [AccountChanged(account)]);
  }

  lemma ContactAnnounces(c: Core, d: Core, account: nat)
    requires d.accounts == c.accounts && d.conversations == c.conversations && d.messages == c.messages
             && d.reactions == c.reactions && d.events == c.events + [RosterChanged(account)]
    requires forall k :: Changed(c.contacts, d.contacts, k) ==> k.0 == account
    ensures Announces(c, d)
  {
    AnnouncesBy(c, d, [RosterChanged(account)]);
  }

  lemma ConversationAnnounces(c: Core, d: Core, v: nat)
    requires d.accounts == c.accounts && d.contacts == c.contacts && d.messages == c.messages
             && d.reactions == c.reactions && d.events == c.events + [ConversationChanged(v)]
    requires v in d.conversations && (forall w :: w != v ==> !Changed(c.conversations, d.conversations, w))
    ensures Announces(c, d)
  {
    AnnouncesBy(c, d, [ConversationChanged(v)]);
  }

  lemma MessageAnnounces(c: Core, d: Core, m: nat)
    requires d.accounts == c.accounts && d.contacts == c.contacts && d.conversations == c.conversations
             && d.events == c.events + [MessageChanged(m)] && m in d.messages
    requires forall n :: n != m ==> !Changed(c.messages, d.messages, n)
    requires forall r :: Changed(c.reactions, d.reactions, r) ==> r in d.reactions && d.reactions[r].message == m
    ensures Announces(c, d)
  {
    AnnouncesBy(c, d, [MessageChanged(m)]);
  }

  lemma AddMessageAnnounces(c: Core, m: Message, now: nat)
    requires m.conversation in c.conversations
    ensures Announces(c, c.AddMessage(m, now).core)
  {
    var d := c.AddMessage(m, now).core;
    var log := [ConversationChanged(m.conversation), MessageAdded(m.id)];
    assert d.events == c.events + log;
    AnnouncesBy(c, d, log);
  }

  lemma DeleteConversationAnnounces(c: Core, v: nat)
    requires Placed(c)
    ensures Announces(c, c.DeleteConversation(v).core)
  {
    if v in c.conversations {
      var d := c.DeleteConversation(v).core;
      forall r | Changed(c.reactions, d.reactions, r) ensures ReactionCovered(c, r, [ConversationChanged(v)]) {
        assert GoodReaction(c, r);
      }
      AnnouncesBy(c, d, [ConversationChanged(v)]);
    }
  }

  lemma DeleteAccountAnnounces(c: Core, account: nat)
    requires Placed(c)
    ensures Announces(c, c.DeleteAccount(account).core)
  {
    if account in c.accounts {
      var d := c.DeleteAccount(account).core;
      var log := [AccountChanged(account)];
      forall m | Changed(c.messages, d.messages, m) ensures MessageCovered(c, m, log) {
        assert GoodMessage(c, m);
      }
      forall r | Changed(c.reactions, d.reactions, r) ensures ReactionCovered(c, r, log) {
        assert GoodReaction(c, r);
      }
      AnnouncesBy(c, d, log);
    }
  }

  lemma SendTextAnnounces(c: Core, conversation: nat, sender: string, body: string, inReplyTo: Option<nat>, now: nat)
    ensures Announces(c, c.SendText(conversation, sender, body, inReplyTo, now).core)
  {
    hide Announces;
    UnchangedAnnounces(c);
    if c.SendText(conversation, sender, body, inReplyTo, now).result.Ok? {
      AddMessageAnnounces(c, Message(FreshId(c.nextMessage), conversation, sender, CheckedBody(body).value, Outgoing,
                                     TextMessage, now, Pending, inReplyTo, None), now);
    }
  }

  lemma ReceiveTextAnnounces(c: Core, conversation: nat, sender: string, body: string, now: nat)
    ensures Announces(c, c.ReceiveText(conversation, sender, body, now).core)
  {
    hide Announces;
    UnchangedAnnounces(c);
    if c.ReceiveText(conversation, sender, body, now).result.Ok? {
      AddMessageAnnounces(c, Message(FreshId(c.nextMessage), conversation, sender, CheckedBody(body).value, Incoming,
                                     TextMessage, now, Delivered, None, None), now);
    }
  }

  lemma FindOrCreateAnnounces(c: Core, account: nat, kind: ConversationKind, address: string, title: string, now: nat)
    ensures Announces(c, c.FindOrCreate(account, kind, address, title, now).core)
  {
    hide Announces;
    UnchangedAnnounces(c);
    if !c.HasConversation(account, kind, address) {
      ConversationAnnounces(c, c.FindOrCreate(account, kind, address, title, now).core, FreshId(c.nextConversation));
    }
  }

  lemma ReceiveTransportTextAnnounces(c: Core, account: nat, kind: ConversationKind, address: string, sender: string,
                                      body: string, now: nat)
    requires Inv(c)
    ensures Announces(c, c.ReceiveTransportText(account, kind, address, sender, body, now).core)
  {
    hide Announces, Inv, Succeeds;
    UnchangedAnnounces(c);
    if account in c.accounts && ValidJid(address) && CheckedBody(body).Ok? {
      var title := Split(address, '@')[0];
      var target := c.FindOrCreate(account, kind, address, title, now);
      var d := target.core.ReceiveText(target.result.value, sender, body, now).core;
      FindOrCreateAnnounces(c, account, kind, address, title, now);
      FindOrCreateKeepsInv(c, account, kind, address, title, now);
      FindOrCreateSucceeds(c, account, kind, address, title, now);
      ReceiveTextAnnounces(target.core, target.result.value, sender, body, now);
      ReceiveTextKeepsInv(target.core, target.result.value, sender, body, now);
      ReceiveTextSucceeds(target.core, target.result.value, sender, body, now);
      AnnouncesComposes(c, target.core, d);
    }
  }

  lemma SyncRosterContactAnnounces(c: Core, account: nat, jid: string, displayName: string,
                                   subscription: RosterSubscription)
    ensures Announces(c, c.SyncRosterContact(account, jid, displayName, subscription).core)
  {
    hide Announces, ValidJid, ContactName;
    UnchangedAnnounces(c);
    var r := c.SyncRosterContact(account, jid, displayName, subscription);
    if r.result == Ok(true) {
      ContactAnnounces(c, r.core, account);
    }
  }

  lemma RemoveContactAnnounces(c: Core, account: nat, jid: string)
    ensures Announces(c, c.RemoveContact(account, jid).core)
  {
    hide Announces, ValidJid;
    UnchangedAnnounces(c);
    var r := c.RemoveContact(account, jid);
    if r.result == Ok(true) {
      ContactAnnounces(c, r.core, account);
    }
  }

  lemma UpdateContactPresenceAnnounces(c: Core, account: nat, jid: string, presence: ContactPresence,
                                       status: Option<string>)
    ensures Announces(c, c.UpdateContactPresence(account, jid, presence, status).core)
  {
    hide Announces, ValidJid, ContactStatus;
    UnchangedAnnounces(c);
    var r := c.UpdateContactPresence(account, jid, presence, status);
    if r.result == Ok(true) {
      ContactAnnounces(c, r.core, account);
    }
  }

  lemma UpsertContactAnnounces(c: Core, account: nat, jid: string, displayName: string, presence: ContactPresence,
                               status: Option<string>)
    ensures Announces(c, c.UpsertContact(account, jid, displayName, presence, status).core)
  {
    hide Announces, ValidJid, ContactName, ContactStatus;
    UnchangedAnnounces(c);
    var r := c.UpsertContact(account, jid, displayName, presence, status);
    if r.result == Ok(()) {
      ContactAnnounces(c, r.core, account);
    }
  }

  lemma AddAccountAnnounces(c: Core, jid: string, server: string, displayName: string)
    ensures Announces(c, c.AddAccount(jid, server, displayName).core)
  {
    hide Announces, ValidJid, ValidServer;
    UnchangedAnnounces(c);
    if ValidJid(jid) && ValidServer(server) {
      PutAccountAnnounces(c, c.AddAccount(jid, server, displayName).core, FreshId(c.nextAccount));
    }
  }

  lemma SetConnectionStateAnnounces(c: Core, account: nat, state: ConnectionState)
    ensures Announces(c, c.SetConnectionState(account, state).core)
  {
    hide Announces;
    UnchangedAnnounces(c);
    if account in c.accounts {
      PutAccountAnnounces(c, c.SetConnectionState(account, state).core, account);
    }
  }

  lemma SetCapabilitiesAnnounces(c: Core, account: nat, capabilities: set<Capability>)
    ensures Announces(c, c.SetCapabilities(account, capabilities).core)
  {
    hide Announces;
    UnchangedAnnounces(c);
    if account in c.accounts {
      PutAccountAnnounces(c, c.SetCapabilities(account, capabilities).core, account);
    }
  }

  lemma RenameAccountAnnounces(c: Core, account: nat, displayName: string)
    ensures Announces(c, c.RenameAccount(account, displayName).core)
  {
    hide Announces, Trim;
    UnchangedAnnounces(c);
    if account in c.accounts && Trim(displayName) != "" {
      PutAccountAnnounces(c, c.RenameAccount(account, displayName).core, account);
    }
  }

  lemma SetAccountProxiesAnnounces(c: Core, account: nat, proxies: seq<ProxyConfig>)
    ensures Announces(c, c.SetAccountProxies(account, proxies).core)
  {
    hide Announces;
    UnchangedAnnounces(c);
    if account in c.accounts {
      PutAccountAnnounces(c, c.SetAccountProxies(account, proxies).core, account);
    }
  }

  lemma ConnectedAnnounces(c: Core, account: nat, capabilities: set<Capability>)
    ensures Announces(c, c.ApplyConnected(account, capabilities).core)
  {
    hide Announces;
    UnchangedAnnounces(c);
    if account in c.accounts {
      PutAccountAnnounces(c, c.ApplyConnected(account, capabilities).core, account);
    }
  }

  lemma DisconnectedAnnounces(c: Core, account: nat, recoverable: bool, detail: Option<string>, kind: DisconnectKind)
    ensures Announces(c, c.ApplyDisconnected(account, recoverable, detail, kind).core)
  {
    hide Announces;
    UnchangedAnnounces(c);
    if account in c.accounts {
      PutAccountAnnounces(c, c.ApplyDisconnected(account, recoverable, detail, kind).core, account);
    }
  }

  lemma OpenConversationAnnounces(c: Core, account: nat, kind: ConversationKind, address: string, title: string,
                                  now: nat)
    ensures Announces(c, c.OpenConversation(account, kind, address, title, now).core)
  {
    hide Announces, ValidJid, Core.FindOrCreate;
    UnchangedAnnounces(c);
    FindOrCreateAnnounces(c, account, kind, address, title, now);
  }

  lemma MarkConversationReadAnnounces(c: Core, conversation: nat)
    ensures Announces(c, c.MarkConversationRead(conversation).core)
  {
    hide Announces;
    UnchangedAnnounces(c);
    if conversation in c.conversations {
      ConversationAnnounces(c, c.MarkConversationRead(conversation).core, conversation);
    }
  }

  lemma AttachAnnounces(c: Core, message: nat, kind: MessageKind, attachment: Attachment)
    ensures Announces(c, c.Attach(message, kind, attachment).core)
  {
    hide Announces, Core.CapabilityError;
    UnchangedAnnounces(c);
    var r := c.Attach(message, kind, attachment);
    if r.result == Ok(()) {
      MessageAnnounces(c, r.core, message);
    }
  }

  lemma AddReactionAnnounces(c: Core, message: nat, actor: string, emoji: string)
    ensures Announces(c, c.AddReaction(message, actor, emoji).core)
  {
    hide Announces, Core.CapabilityError, Trim;
    UnchangedAnnounces(c);
    var r := c.AddReaction(message, actor, emoji);
    if r.result.Ok? {
      MessageAnnounces(c, r.core, message);
    }
  }

  lemma SetDeliveryStateAnnounces(c: Core, message: nat, delivery: DeliveryState)
    ensures Announces(c, c.SetDeliveryState(message, delivery).core)
  {
    hide Announces;
    UnchangedAnnounces(c);
    if message in c.messages {
      MessageAnnounces(c, c.SetDeliveryState(message, delivery).core, message);
    }
  }

  lemma TransportEventAnnounces(c: Core, e: TransportEvent)
    requires Inv(c)
    ensures Announces(c, c.ApplyTransportEvent(e).core)
  {
    hide Announces, Inv, Core.ApplyConnected, Core.ApplyDisconnected, Core.SetCapabilities, Core.SyncRosterContact;
    hide Core.RemoveContact, Core.UpdateContactPresence, Core.ReceiveTransportText, Core.SetDeliveryState;
    hide Core.ReceiptApplies;
    UnchangedAnnounces(c);
    match e
    case Connected(account, capabilities) => ConnectedAnnounces(c, account, capabilities);
    case Disconnected(account, recoverable, detail, kind) =>
      DisconnectedAnnounces(c, account, recoverable, detail, kind);
    case CapabilitiesDiscovered(account, capabilities) => SetCapabilitiesAnnounces(c, account, capabilities);
    case RosterContactUpsert(account, jid, displayName, subscription) =>
      SyncRosterContactAnnounces(c, account, jid, displayName, subscription);
    case RosterContactRemoved(account, jid) => RemoveContactAnnounces(c, account, jid);
    case ContactPresenceUpdated(account, jid, presence, status) =>
      UpdateContactPresenceAnnounces(c, account, jid, presence, status);
    case IncomingText(account, kind, address, sender, body, receivedAt) =>
      ReceiveTransportTextAnnounces(c, account, kind, address, sender, body, receivedAt);
    case DeliveryUpdated(account, sender, message, delivery) => SetDeliveryStateAnnounces(c, message, delivery);
  }

  lemma OpAnnounces(c: Core, op: Op)
    requires Inv(c)
    ensures Announces(c, Perform(c, op).core)
  {
    hide Announces, Inv, Placed, Core.AddAccount, Core.SetConnectionState, Core.SetCapabilities, Core.RenameAccount;
    hide Core.SetAccountProxies, Core.UpsertContact, Core.OpenConversation, Core.MarkConversationRead, Core.SendText;
    hide Core.ReceiveText, Core.Attach, Core.AddReaction, Core.SetDeliveryState, Core.DeleteConversation;
    hide Core.DeleteAccount, Core.ApplyTransportEvent;
    InvIsPlaced(c);
    match op
    case OpAddAccount(jid, server, displayName) => AddAccountAnnounces(c, jid, server, displayName);
    case OpSetConnectionState(account, state) => SetConnectionStateAnnounces(c, account, state);
    case OpSetCapabilities(account, capabilities) => SetCapabilitiesAnnounces(c, account, capabilities);
    case OpRenameAccount(account, displayName) => RenameAccountAnnounces(c, account, displayName);
    case OpSetAccountProxies(account, proxies) => SetAccountProxiesAnnounces(c, account, proxies);
    case OpUpsertContact(account, jid, displayName, presence, status) =>
      UpsertContactAnnounces(c, account, jid, displayName, presence, status);
    case OpOpenConversation(account, kind, address, title, now) =>
      OpenConversationAnnounces(c, account, kind, address, title, now);
    case OpMarkConversationRead(conversation) => MarkConversationReadAnnounces(c, conversation);
    case OpSendText(conversation, sender, body, inReplyTo, now) =>
      SendTextAnnounces(c, conversation, sender, body, inReplyTo, now);
    case OpReceiveText(conversation, sender, body, now) => ReceiveTextAnnounces(c, conversation, sender, body, now);
    case OpAttach(message, kind, attachment) => AttachAnnounces(c, message, kind, attachment);
    case OpAddReaction(message, actor, emoji) => AddReactionAnnounces(c, message, actor, emoji);
    case OpSetDeliveryState(message, delivery) => SetDeliveryStateAnnounces(c, message, delivery);
    case OpDeleteConversation(conversation) => DeleteConversationAnnounces(c, conversation);
    case OpDeleteAccount(account) => DeleteAccountAnnounces(c, account);
    case OpTransportEvent(event) => TransportEventAnnounces(c, event);
  }

  /** Whatever operations run between two drains, the log handed to the second drain covers every difference
      between the states at the two drains. */
  lemma {:induction false} RunAnnounces(c: Core, ops: seq<Op>)
    requires Inv(c)
    ensures Announces(c, RunOps(c, ops))
    decreases |ops|
  {
    hide Announces, Inv, Succeeds;
    if ops == [] {
      UnchangedAnnounces(c);
    } else {
      var d := Perform(c, ops[0]).core;
      OpAnnounces(c, ops[0]);
      OpKeepsInv(c, ops[0]);
      OpSucceeds(c, ops[0]);
      RunAnnounces(d, ops[1..]);
      RunKeepsInv(d, ops[1..]);
      RunSucceeds(d, ops[1..]);
      AnnouncesComposes(c, d, RunOps(d, ops[1..]));
    }
  }

  lemma DrainedLogIsComplete(drained: Core, ops: seq<Op>)
    requires Inv(drained) && drained.events == []
    ensures Notified(drained, RunOps(drained, ops), RunOps(drained, ops).events)
  {
    RunAnnounces(drained, ops);
    var d := RunOps(drained, ops);
    assert d.events[0..] == d.events;
  }
}
