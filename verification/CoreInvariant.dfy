/** What every reachable core satisfies, whatever sequence of operations built it. */
module CoreInvariant {
  import opened Wrappers
  import opened Text
  import opened Domain
  import opened CoreState

  predicate NoStaleFailure(a: Account) {
    a.state == Connecting || a.state == Online ==> a.error == None && a.disconnectKind == None
  }

  /** Stored under its own identity, below the allocator, and not showing the failure of an earlier session. */
  predicate GoodAccount(c: Core, a: nat) {
    a in c.accounts && c.accounts[a].id == a && 1 <= a < c.nextAccount && NoStaleFailure(c.accounts[a])
  }

  predicate GoodContact(c: Core, k: (nat, string)) {
    k in c.contacts && k.0 in c.accounts && k == (c.contacts[k].account, c.contacts[k].jid)
  }

  predicate GoodConversation(c: Core, v: nat) {
    v in c.conversations && c.conversations[v].id == v && 1 <= v < c.nextConversation
    && c.conversations[v].account in c.accounts
  }

  /** In its conversation, and answering, if anything, an older message of that same conversation. */
  predicate GoodMessage(c: Core, m: nat) {
    && m in c.messages && c.messages[m].id == m && 1 <= m < c.nextMessage
    && c.messages[m].conversation in c.conversations
    && (c.messages[m].inReplyTo.Some? ==>
          var target := c.messages[m].inReplyTo.value;
          target in c.messages && target < m && c.messages[target].conversation == c.messages[m].conversation)
  }

  predicate GoodReaction(c: Core, r: nat) {
    r in c.reactions && c.reactions[r].id == r && 1 <= r < c.nextReaction && c.reactions[r].message in c.messages
  }

  /** Every record is well placed: identity, owner, allocator, reply target. */
  ghost predicate Placed(c: Core) {
    && (forall a :: a in c.accounts ==> GoodAccount(c, a))
    && (forall k :: k in c.contacts ==> GoodContact(c, k))
    && (forall v :: v in c.conversations ==> GoodConversation(c, v))
    && (forall m :: m in c.messages ==> GoodMessage(c, m))
    && (forall r :: r in c.reactions ==> GoodReaction(c, r))
  }

  predicate SameKey(v: Conversation, w: Conversation) {
    v.account == w.account && v.kind == w.kind && v.address == w.address
  }

  /** One conversation per account, kind and address. */
  ghost predicate Unambiguous(c: Core) {
    forall v, w :: (v in c.conversations && w in c.conversations
                    && SameKey(c.conversations[v], c.conversations[w])) ==> v == w
  }

  ghost function IncomingIn(c: Core, conversation: nat): set<nat> {
    set m | m in c.messages && c.messages[m].conversation == conversation && c.messages[m].direction == Incoming
  }

  /** An unread badge never counts more messages than arrived. */
  ghost predicate UnreadBounded(c: Core) {
    forall v :: v in c.conversations ==> c.conversations[v].unread <= |IncomingIn(c, v)|
  }

  ghost predicate Inv(c: Core) {
    Placed(c) && Unambiguous(c) && UnreadBounded(c)
  }

  lemma EmptyCoreInv()
    ensures Inv(EmptyCore)
  {
  }

  lemma InvIsPlaced(c: Core)
    requires Inv(c)
    ensures Placed(c)
  {
  }

  lemma InvIsUnambiguous(c: Core)
    requires Inv(c)
    ensures Unambiguous(c)
  {
  }

  /** The invariant but for the places of the records only reads conversations and messages. */
  lemma SameTalkKeepsInv(c: Core, d: Core)
    requires Inv(c) && Placed(d) && d.messages == c.messages && d.conversations == c.conversations
    ensures Inv(d)
  {
    hide Placed, IncomingIn;
    forall v | v in d.conversations ensures d.conversations[v].unread <= |IncomingIn(d, v)| {
      SameMessagesSameIncoming(c, d, v);
    }
  }

  lemma EmitKeepsInv(c: Core, e: CoreEvent)
    requires Inv(c)
    ensures Inv(c.Emit(e))
  {
    SameTalkKeepsInv(c, c.Emit(e));
  }

  lemma DrainKeepsInv(c: Core)
    requires Inv(c)
    ensures Inv(c.(events := []))
  {
    SameTalkKeepsInv(c, c.(events := []));
  }

  lemma PutAccountKeepsInv(c: Core, account: nat, a: Account)
    requires Inv(c) && a.id == account && 1 <= account && NoStaleFailure(a)
    requires account < c.nextAccount
    ensures Inv(c.PutAccount(account, a))
  {
    SameTalkKeepsInv(c, c.PutAccount(account, a));
  }

  lemma NextAccountKeepsInv(c: Core, next: nat)
    requires Inv(c) && c.nextAccount <= next
    ensures Inv(c.(nextAccount := next))
  {
    SameTalkKeepsInv(c, c.(nextAccount := next));
  }

  lemma AddAccountKeepsInv(c: Core, jid: string, server: string, displayName: string)
    requires Inv(c)
    ensures Inv(c.AddAccount(jid, server, displayName).core)
  {
    hide Inv;
    if ValidJid(jid) && ValidServer(server) {
      var id := FreshId(c.nextAccount);
      var d := c.(nextAccount := id + 1);
      NextAccountKeepsInv(c, id + 1);
      PutAccountKeepsInv(d, id, Account(id, jid, server, displayName, Offline, {}, None, None, true, []));
    }
  }

  lemma PutContactKeepsInv(c: Core, account: nat, jid: string, contact: Contact)
    requires Inv(c) && account in c.accounts && contact.account == account && contact.jid == jid
    ensures Inv(c.PutContact(account, jid, contact))
  {
    SameTalkKeepsInv(c, c.PutContact(account, jid, contact));
  }

  lemma RemoveContactKeepsInv(c: Core, account: nat, jid: string)
    requires Inv(c)
    ensures Inv(c.RemoveContact(account, jid).core)
  {
    hide Inv, Placed, ValidJid;
    InvIsPlaced(c);
    RemoveContactKeepsPlaced(c, account, jid);
    SameTalkKeepsInv(c, c.RemoveContact(account, jid).core);
  }

  lemma RemoveContactKeepsPlaced(c: Core, account: nat, jid: string)
    requires Placed(c)
    ensures Placed(c.RemoveContact(account, jid).core)
  {
    hide ValidJid;
  }

  lemma CreateConversationKeepsPlaced(c: Core, account: nat, kind: ConversationKind, address: string, title: string,
                                      now: nat)
    requires Placed(c) && account in c.accounts
    ensures Placed(c.CreateConversation(account, kind, address, title, now).core)
    ensures FreshId(c.nextConversation) !in c.conversations
  {
    assert FreshId(c.nextConversation) in c.conversations ==> GoodConversation(c, FreshId(c.nextConversation));
  }

  lemma CreateConversationKeepsInv(c: Core, account: nat, kind: ConversationKind, address: string, title: string,
                                   now: nat)
    requires Inv(c) && account in c.accounts && !c.HasConversation(account, kind, address)
    ensures Inv(c.CreateConversation(account, kind, address, title, now).core)
  {
    hide Placed;
    CreateConversationKeepsPlaced(c, account, kind, address, title, now);
    var d := c.CreateConversation(account, kind, address, title, now).core;
    forall v | v in c.conversations ensures d.conversations[v].unread <= |IncomingIn(d, v)| {
      assert IncomingIn(d, v) == IncomingIn(c, v);
    }
    forall v | v in c.conversations ensures !SameKey(c.conversations[v], d.conversations[FreshId(c.nextConversation)]) {
      assert !c.IsConversation(v, account, kind, address);
    }
  }

  lemma FindOrCreateKeepsInv(c: Core, account: nat, kind: ConversationKind, address: string, title: string, now: nat)
    requires Inv(c) && account in c.accounts
    ensures var r := c.FindOrCreate(account, kind, address, title, now);
            Inv(r.core) && r.result.Ok? && r.core.IsConversation(r.result.value, account, kind, address)
  {
    if !c.HasConversation(account, kind, address) {
      CreateConversationKeepsInv(c, account, kind, address, title, now);
    }
  }

  lemma MarkReadKeepsPlaced(c: Core, conversation: nat)
    requires Placed(c)
    ensures Placed(c.MarkConversationRead(conversation).core)
  {
  }

  lemma MarkReadKeepsInv(c: Core, conversation: nat)
    requires Inv(c)
    ensures Inv(c.MarkConversationRead(conversation).core)
  {
    hide Placed, IncomingIn;
    MarkReadKeepsPlaced(c, conversation);
    var d := c.MarkConversationRead(conversation).core;
    forall v | v in d.conversations ensures d.conversations[v].unread <= |IncomingIn(d, v)| {
      SameMessagesSameIncoming(c, d, v);
    }
  }

  lemma SameMessagesSameIncoming(c: Core, d: Core, v: nat)
    requires d.messages == c.messages
    ensures IncomingIn(d, v) == IncomingIn(c, v)
  {
  }

  ghost predicate Answerable(c: Core, m: Message) {
    m.inReplyTo.Some? ==>
      m.inReplyTo.value in c.messages && c.messages[m.inReplyTo.value].conversation == m.conversation
  }

  lemma AddMessageKeepsUnread(c: Core, m: Message, now: nat)
    requires UnreadBounded(c) && m.conversation in c.conversations && m.id !in c.messages
    ensures UnreadBounded(c.AddMessage(m, now).core)
  {
    hide IncomingIn;
    var d := c.AddMessage(m, now).core;
    forall v | v in d.conversations ensures d.conversations[v].unread <= |IncomingIn(d, v)| {
      IncomingGrows(c, d, m, v);
    }
  }

  lemma IncomingOfAdded(c: Core, d: Core, m: Message, v: nat)
    requires m.id !in c.messages && d.messages == c.messages[m.id := m]
    ensures IncomingIn(d, v) == IncomingIn(c, v) + if v == m.conversation && m.direction == Incoming then {m.id} else {}
    ensures m.id !in IncomingIn(c, v)
  {
    assert forall n :: n in d.messages <==> n in c.messages || n == m.id;
  }

  lemma IncomingGrows(c: Core, d: Core, m: Message, v: nat)
    requires m.id !in c.messages && d.messages == c.messages[m.id := m]
    ensures |IncomingIn(d, v)| == |IncomingIn(c, v)| + if v == m.conversation && m.direction == Incoming then 1 else 0
  {
    hide IncomingIn;
    IncomingOfAdded(c, d, m, v);
  }

  lemma AddMessageKeepsPlaced(c: Core, m: Message, now: nat)
    requires Placed(c) && m.conversation in c.conversations && m.id == FreshId(c.nextMessage) && m.id !in c.messages
    requires Answerable(c, m)
    ensures Placed(c.AddMessage(m, now).core)
  {
    var d := c.AddMessage(m, now).core;
    forall n | n in d.messages ensures GoodMessage(d, n) {
      if n == m.id && m.inReplyTo.Some? {
        assert GoodMessage(c, m.inReplyTo.value);
      } else if n != m.id {
        assert GoodMessage(c, n);
      }
    }
  }

  /** Messages are stored under their own identifiers, below the allocator. */
  ghost predicate Numbered(c: Core) {
    forall m :: m in c.messages ==> c.messages[m].id == m < c.nextMessage
  }

  lemma PlacedIsNumbered(c: Core)
    requires Placed(c)
    ensures Numbered(c)
  {
    forall m | m in c.messages ensures c.messages[m].id == m < c.nextMessage {
      assert GoodMessage(c, m);
    }
  }

  lemma InvIsNumbered(c: Core)
    requires Inv(c)
    ensures Numbered(c)
  {
    hide Placed, Numbered;
    PlacedIsNumbered(c);
  }

  lemma NextMessageIsNew(c: Core)
    requires Numbered(c)
    ensures FreshId(c.nextMessage) !in c.messages
  {
  }

  lemma AddMessageKeepsInv(c: Core, m: Message, now: nat)
    requires Inv(c) && m.conversation in c.conversations && m.id == FreshId(c.nextMessage) && Answerable(c, m)
    ensures Inv(c.AddMessage(m, now).core)
  {
    hide UnreadBounded, Placed;
    PlacedIsNumbered(c);
    NextMessageIsNew(c);
    AddMessageKeepsUnread(c, m, now);
    AddMessageKeepsPlaced(c, m, now);
  }

  lemma SendTextKeepsInv(c: Core, conversation: nat, sender: string, body: string, inReplyTo: Option<nat>, now: nat)
    requires Inv(c)
    ensures Inv(c.SendText(conversation, sender, body, inReplyTo, now).core)
  {
    var r := c.SendText(conversation, sender, body, inReplyTo, now);
    if r.result.Ok? {
      AddMessageKeepsInv(c, Message(FreshId(c.nextMessage), conversation, sender, CheckedBody(body).value, Outgoing,
                                    TextMessage, now, Pending, inReplyTo, None), now);
    }
  }

  lemma ReceiveTextKeepsInv(c: Core, conversation: nat, sender: string, body: string, now: nat)
    requires Inv(c)
    ensures Inv(c.ReceiveText(conversation, sender, body, now).core)
  {
    var r := c.ReceiveText(conversation, sender, body, now);
    if r.result.Ok? {
      AddMessageKeepsInv(c, Message(FreshId(c.nextMessage), conversation, sender, CheckedBody(body).value, Incoming,
                                    TextMessage, now, Delivered, None, None), now);
    }
  }

  /** Rewriting a message in place is harmless while it keeps its place in the conversation. */
  ghost predicate SamePlace(m: Message, n: Message) {
    m.id == n.id && m.conversation == n.conversation && m.direction == n.direction && m.inReplyTo == n.inReplyTo
  }

  lemma PutMessageKeepsPlaced(c: Core, message: nat, m: Message)
    requires Placed(c) && message in c.messages && SamePlace(c.messages[message], m)
    ensures Placed(c.PutMessage(message, m))
  {
    var d := c.PutMessage(message, m);
    forall n | n in d.messages ensures GoodMessage(d, n) {
      assert GoodMessage(c, n);
    }
  }

  lemma PutMessageKeepsUnread(c: Core, message: nat, m: Message)
    requires UnreadBounded(c) && message in c.messages && SamePlace(c.messages[message], m)
    ensures UnreadBounded(c.PutMessage(message, m))
  {
    var d := c.PutMessage(message, m);
    forall v | v in d.conversations ensures d.conversations[v].unread <= |IncomingIn(d, v)| {
      assert IncomingIn(d, v) == IncomingIn(c, v);
    }
  }

  lemma PutMessageKeepsInv(c: Core, message: nat, m: Message)
    requires Inv(c) && message in c.messages && SamePlace(c.messages[message], m)
    ensures Inv(c.PutMessage(message, m))
  {
    hide Placed, UnreadBounded;
    PutMessageKeepsPlaced(c, message, m);
    PutMessageKeepsUnread(c, message, m);
  }

  lemma AddReactionKeepsPlaced(c: Core, message: nat, actor: string, emoji: string)
    requires Placed(c)
    ensures Placed(c.AddReaction(message, actor, emoji).core)
  {
    hide Core.CapabilityError, Trim;
    var d := c.AddReaction(message, actor, emoji).core;
    assert forall m :: m in c.messages ==> GoodMessage(c, m) && GoodMessage(d, m);
  }

  lemma AddReactionKeepsInv(c: Core, message: nat, actor: string, emoji: string)
    requires Inv(c)
    ensures Inv(c.AddReaction(message, actor, emoji).core)
  {
    hide Inv, Placed;
    InvIsPlaced(c);
    AddReactionKeepsPlaced(c, message, actor, emoji);
    SameTalkKeepsInv(c, c.AddReaction(message, actor, emoji).core);
  }

  lemma WithoutKeepsPlaced(c: Core, doomed: set<nat>)
    requires Placed(c)
    ensures Placed(c.Without(doomed))
  {
    var d := c.Without(doomed);
    forall m | m in d.messages ensures GoodMessage(d, m) {
      assert GoodMessage(c, m);
    }
    forall r | r in d.reactions ensures GoodReaction(d, r) {
      assert GoodReaction(c, r);
    }
  }

  lemma WithoutKeepsInv(c: Core, doomed: set<nat>)
    requires Inv(c)
    ensures Inv(c.Without(doomed))
  {
    hide Placed;
    WithoutKeepsPlaced(c, doomed);
    var d := c.Without(doomed);
    forall v | v in d.conversations ensures d.conversations[v].unread <= |IncomingIn(d, v)| {
      assert IncomingIn(d, v) == IncomingIn(c, v);
    }
  }

  lemma DeleteConversationKeepsInv(c: Core, conversation: nat)
    requires Inv(c)
    ensures Inv(c.DeleteConversation(conversation).core)
  {
    hide Inv;
    WithoutKeepsInv(c, {conversation});
    EmitKeepsInv(c.Without({conversation}), ConversationChanged(conversation));
  }

  lemma DropAccountKeepsPlaced(c: Core, account: nat)
    requires Placed(c) && (forall v :: v in c.conversations ==> c.conversations[v].account != account)
    ensures Placed(c.(contacts := map k | k in c.contacts && k.0 != account :: c.contacts[k],
                      accounts := c.accounts - {account}))
  {
  }

  lemma DeleteAccountKeepsInv(c: Core, account: nat)
    requires Inv(c)
    ensures Inv(c.DeleteAccount(account).core)
  {
    hide Inv, Placed;
    if account in c.accounts {
      var rest := c.Without(c.ConversationsOf(account));
      WithoutKeepsInv(c, c.ConversationsOf(account));
      InvIsPlaced(rest);
      DropAccountKeepsPlaced(rest, account);
      var d := rest.(contacts := map k | k in c.contacts && k.0 != account :: c.contacts[k],
                     accounts := c.accounts - {account});
      SameTalkKeepsInv(rest, d);
      EmitKeepsInv(d, AccountChanged(account));
    }
  }

  lemma SyncRosterContactKeepsInv(c: Core, account: nat, jid: string, displayName: string,
                                  subscription: RosterSubscription)
    requires Inv(c)
    ensures Inv(c.SyncRosterContact(account, jid, displayName, subscription).core)
  {
    hide Inv;
    var r := c.SyncRosterContact(account, jid, displayName, subscription);
    if r.result == Ok(true) {
      PutContactKeepsInv(c, account, jid, r.core.contacts[(account, jid)]);
    }
  }

  lemma UpdateContactPresenceKeepsInv(c: Core, account: nat, jid: string, presence: ContactPresence,
                                      status: Option<string>)
    requires Inv(c)
    ensures Inv(c.UpdateContactPresence(account, jid, presence, status).core)
  {
    var r := c.UpdateContactPresence(account, jid, presence, status);
    if r.result == Ok(true) {
      assert GoodContact(c, (account, jid));
      PutContactKeepsInv(c, account, jid, r.core.contacts[(account, jid)]);
    }
  }

  lemma TransportEventKeepsInv(c: Core, e: TransportEvent)
    requires Inv(c)
    ensures Inv(c.ApplyTransportEvent(e).core)
  {
    hide Inv, Core.ApplyConnected, Core.ApplyDisconnected, Core.SetCapabilities, Core.SyncRosterContact;
    hide Core.RemoveContact, Core.UpdateContactPresence, Core.ReceiveTransportText, Core.ApplyDeliveryUpdate;
    match e
    case Connected(account, capabilities) => ApplyConnectedKeepsInv(c, account, capabilities);
    case Disconnected(account, recoverable, detail, kind) =>
      ApplyDisconnectedKeepsInv(c, account, recoverable, detail, kind);
    case CapabilitiesDiscovered(account, capabilities) => SetCapabilitiesKeepsInv(c, account, capabilities);
    case RosterContactUpsert(account, jid, displayName, subscription) =>
      SyncRosterContactKeepsInv(c, account, jid, displayName, subscription);
    case RosterContactRemoved(account, jid) => RemoveContactKeepsInv(c, account, jid);
    case ContactPresenceUpdated(account, jid, presence, status) =>
      UpdateContactPresenceKeepsInv(c, account, jid, presence, status);
    case IncomingText(account, kind, address, sender, body, receivedAt) =>
      ReceiveTransportTextKeepsInv(c, account, kind, address, sender, body, receivedAt);
    case DeliveryUpdated(account, sender, message, delivery) =>
      ApplyDeliveryUpdateKeepsInv(c, account, sender, message, delivery);
  }

  lemma StoredAccount(c: Core, account: nat)
    requires Inv(c) && account in c.accounts
    ensures c.accounts[account].id == account && 1 <= account < c.nextAccount && NoStaleFailure(c.accounts[account])
  {
    assert GoodAccount(c, account);
  }

  lemma ApplyConnectedKeepsInv(c: Core, account: nat, capabilities: set<Capability>)
    requires Inv(c)
    ensures Inv(c.ApplyConnected(account, capabilities).core)
  {
    hide Inv;
    if account in c.accounts {
      StoredAccount(c, account);
      PutAccountKeepsInv(c, account, c.accounts[account].(state := Online, capabilities := capabilities,
                                                          error := None, disconnectKind := None));
    }
  }

  lemma ApplyDisconnectedKeepsInv(c: Core, account: nat, recoverable: bool, detail: Option<string>,
                                  kind: DisconnectKind)
    requires Inv(c)
    ensures Inv(c.ApplyDisconnected(account, recoverable, detail, kind).core)
  {
    hide Inv;
    if account in c.accounts {
      StoredAccount(c, account);
      PutAccountKeepsInv(c, account, c.accounts[account].(state := if recoverable then Offline else Failed,
                                                          error := detail, disconnectKind := Some(kind)));
    }
  }

  lemma SetCapabilitiesKeepsInv(c: Core, account: nat, capabilities: set<Capability>)
    requires Inv(c)
    ensures Inv(c.SetCapabilities(account, capabilities).core)
  {
    hide Inv;
    if account in c.accounts {
      StoredAccount(c, account);
      PutAccountKeepsInv(c, account, c.accounts[account].(capabilities := capabilities));
    }
  }

  lemma ReceiveTransportTextKeepsInv(c: Core, account: nat, kind: ConversationKind, address: string, sender: string,
                                     body: string, now: nat)
    requires Inv(c)
    ensures Inv(c.ReceiveTransportText(account, kind, address, sender, body, now).core)
  {
    hide Inv, ValidJid, CheckedBody, Split, Core.FindOrCreate, Core.ReceiveText;
    if account in c.accounts && ValidJid(address) && CheckedBody(body).Ok? {
      var title := Split(address, '@')[0];
      FindOrCreateKeepsInv(c, account, kind, address, title, now);
      TargetIsFound(c, account, kind, address, title, now);
      var target := c.FindOrCreate(account, kind, address, title, now);
      ReceiveTextKeepsInv(target.core, target.result.value, sender, body, now);
    }
  }

  lemma TargetIsFound(c: Core, account: nat, kind: ConversationKind, address: string, title: string, now: nat)
    ensures c.FindOrCreate(account, kind, address, title, now).result.Ok?
  {
  }

  lemma ApplyDeliveryUpdateKeepsInv(c: Core, account: nat, sender: string, message: nat, delivery: DeliveryState)
    requires Inv(c)
    ensures Inv(c.ApplyDeliveryUpdate(account, sender, message, delivery).core)
  {
    hide Inv, ValidJid;
    if message in c.messages {
      PutMessageKeepsInv(c, message, c.messages[message].(delivery := delivery));
    }
  }

  lemma AccountOpKeepsInv(c: Core, account: nat, op: Op)
    requires Inv(c)
    requires match op
             case OpSetConnectionState(a, _) => a == account
             case OpSetCapabilities(a, _) => a == account
             case OpRenameAccount(a, _) => a == account
             case OpSetAccountProxies(a, _) => a == account
             case _ => false
    ensures Inv(Perform(c, op).core)
  {
    var r := Perform(c, op);
    if r.error == None {
      PutAccountKeepsInv(c, account, r.core.accounts[account]);
      assert r.core == c.PutAccount(account, r.core.accounts[account]);
    }
  }

  /** Every operation of the core, accepted or refused, keeps the invariant. */
  lemma OpKeepsInv(c: Core, op: Op)
    requires Inv(c)
    ensures Inv(Perform(c, op).core)
  {
    hide Inv;
    match op
    case OpAddAccount(jid, server, displayName) => AddAccountKeepsInv(c, jid, server, displayName);
    case OpSetConnectionState(account, state) => AccountOpKeepsInv(c, account, op);
    case OpSetCapabilities(account, capabilities) => AccountOpKeepsInv(c, account, op);
    case OpRenameAccount(account, displayName) => AccountOpKeepsInv(c, account, op);
    case OpSetAccountProxies(account, proxies) => AccountOpKeepsInv(c, account, op);
    case OpUpsertContact(account, jid, displayName, presence, status) =>
      var r := c.UpsertContact(account, jid, displayName, presence, status);
      if r.result.Ok? {
        PutContactKeepsInv(c, account, jid, r.core.contacts[(account, jid)]);
      }
    case OpOpenConversation(account, kind, address, title, now) =>
      if account in c.accounts {
        FindOrCreateKeepsInv(c, account, kind, address, title, now);
      }
    case OpMarkConversationRead(conversation) => MarkReadKeepsInv(c, conversation);
    case OpSendText(conversation, sender, body, inReplyTo, now) =>
      SendTextKeepsInv(c, conversation, sender, body, inReplyTo, now);
    case OpReceiveText(conversation, sender, body, now) => ReceiveTextKeepsInv(c, conversation, sender, body, now);
    case OpAttach(message, kind, attachment) =>
      if c.Attach(message, kind, attachment).result.Ok? {
        PutMessageKeepsInv(c, message, c.messages[message].(kind := kind, attachment := Some(attachment)));
      }
    case OpAddReaction(message, actor, emoji) => AddReactionKeepsInv(c, message, actor, emoji);
    case OpSetDeliveryState(message, delivery) =>
      if message in c.messages {
        PutMessageKeepsInv(c, message, c.messages[message].(delivery := delivery));
      }
    case OpDeleteConversation(conversation) => DeleteConversationKeepsInv(c, conversation);
    case OpDeleteAccount(account) => DeleteAccountKeepsInv(c, account);
    case OpTransportEvent(event) => TransportEventKeepsInv(c, event);
  }

  /** The state a sequence of operations leads to. */
  ghost function RunOps(c: Core, ops: seq<Op>): Core
    decreases |ops|
  {
    if ops == [] then c else RunOps(Perform(c, ops[0]).core, ops[1..])
  }

  lemma {:induction false} RunKeepsInv(c: Core, ops: seq<Op>)
    requires Inv(c)
    decreases |ops|
    ensures Inv(RunOps(c, ops))
  {
    hide Perform, Inv;
    if ops != [] {
      OpKeepsInv(c, ops[0]);
      RunKeepsInv(Perform(c, ops[0]).core, ops[1..]);
    }
  }

  lemma {:induction false} RunOpsAppend(c: Core, ops: seq<Op>, more: seq<Op>)
    ensures RunOps(c, ops + more) == RunOps(RunOps(c, ops), more)
    decreases |ops|
  {
    hide Perform;
    if ops == [] {
      assert ops + more == more;
    } else {
      RunOpsAppend(Perform(c, ops[0]).core, ops[1..], more);
      assert (ops + more)[1..] == ops[1..] + more;
    }
  }

  /** Reply chains end: following them from any message reaches an original post of the same conversation. */
  ghost function ThreadRoot(c: Core, message: nat): (root: nat)
    requires Inv(c) && message in c.messages
    ensures root in c.messages && root <= message && c.messages[root].inReplyTo == None
    ensures c.messages[root].conversation == c.messages[message].conversation
    decreases message
  {
    match c.messages[message].inReplyTo
    case None => message
    case Some(target) => ThreadRoot(c, target)
  }

  /** Opening and receiving resolve to the same conversation whichever record a lookup visits first. */
  lemma LookupIsUnique(c: Core, v: nat, account: nat, kind: ConversationKind, address: string)
    requires Unambiguous(c) && c.IsConversation(v, account, kind, address)
    ensures c.HasConversation(account, kind, address) && c.ConversationFor(account, kind, address) == v
  {
    assert c.IsConversation(c.ConversationFor(account, kind, address), account, kind, address);
  }

  // ----- refused operations -------------------------------------------------------------

  /** All or nothing: an operation that reports an error has changed no record, allocator or event. */
  lemma RefusedOpChangesNothing(c: Core, op: Op)
    requires Perform(c, op).error.Some?
    ensures Perform(c, op).core == c
  {
    match op
    case OpTransportEvent(event) => TransportEventErrors(c, event);
    case _ =>
  }

  /** A transport event is refused exactly when it is text for a known account and a valid address whose body
      does not validate; every other malformed event is skipped. The failures of the operations it is built
      from are unreachable. */
  lemma TransportEventErrors(c: Core, e: TransportEvent)
    ensures c.ApplyTransportEvent(e).result.Err? <==>
              e.IncomingText? && e.account in c.accounts && ValidJid(e.address) && CheckedBody(e.body).Err?
    ensures c.ApplyTransportEvent(e).result.Err? ==>
              c.ApplyTransportEvent(e) == Ret(c, Err(CheckedBody(e.body).error))
  {
    if e.IncomingText? && e.account in c.accounts && ValidJid(e.address) && CheckedBody(e.body).Ok? {
      var target := c.FindOrCreate(e.account, e.conversationKind, e.address, Split(e.address, '@')[0], e.receivedAt);
      assert target.result.value in target.core.conversations by {
        if c.HasConversation(e.account, e.conversationKind, e.address) {
          assert c.IsConversation(target.result.value, e.account, e.conversationKind, e.address);
        }
      }
    }
  }

  // ----- identity over time -------------------------------------------------------------

  /** Allocators only grow, identifiers are never given out twice, and a record never changes owner. */
  ghost predicate Succeeds(c: Core, d: Core) {
    && c.nextAccount <= d.nextAccount && c.nextConversation <= d.nextConversation
    && c.nextMessage <= d.nextMessage && c.nextReaction <= d.nextReaction
    && (forall a :: a in d.accounts && a < c.nextAccount ==> a in c.accounts)
    && (forall v :: v in d.conversations && v < c.nextConversation ==>
                      v in c.conversations && SameConversation(c.conversations[v], d.conversations[v]))
    && (forall m :: m in d.messages && m < c.nextMessage ==>
                      m in c.messages && SameMessage(c.messages[m], d.messages[m]))
    && (forall r :: r in d.reactions && r < c.nextReaction ==>
                      r in c.reactions && c.reactions[r] == d.reactions[r])
  }

  predicate SameConversation(v: Conversation, w: Conversation) {
    v.id == w.id && v.account == w.account && v.kind == w.kind && v.address == w.address && v.title == w.title
  }

  predicate SameMessage(m: Message, n: Message) {
    && m.id == n.id && m.conversation == n.conversation && m.sender == n.sender && m.body == n.body
    && m.direction == n.direction && m.sentAt == n.sentAt && m.inReplyTo == n.inReplyTo
  }

  lemma SucceedsTransitive(c: Core, d: Core, e: Core)
    requires Succeeds(c, d) && Succeeds(d, e)
    ensures Succeeds(c, e)
  {
  }

  lemma SucceedsReflexive(c: Core)
    ensures Succeeds(c, c)
  {
  }

  /** Only accounts, contacts and the log differ, and no account appears under an identifier given out before. */
  ghost predicate RosterOnly(c: Core, d: Core) {
    && d.conversations == c.conversations && d.messages == c.messages && d.reactions == c.reactions
    && d.nextConversation == c.nextConversation && d.nextMessage == c.nextMessage && d.nextReaction == c.nextReaction
    && c.nextAccount <= d.nextAccount
    && (forall a :: a in d.accounts && a < c.nextAccount ==> a in c.accounts)
  }

  lemma RosterChangeSucceeds(c: Core, d: Core)
    requires RosterOnly(c, d)
    ensures Succeeds(c, d)
  {
  }

  lemma AddAccountIsRosterOnly(c: Core, jid: string, server: string, displayName: string)
    ensures RosterOnly(c, c.AddAccount(jid, server, displayName).core)
  {
    hide ValidJid, ValidServer;
  }

  lemma SetConnectionStateIsRosterOnly(c: Core, account: nat, state: ConnectionState)
    ensures RosterOnly(c, c.SetConnectionState(account, state).core)
  {
  }

  lemma SetCapabilitiesIsRosterOnly(c: Core, account: nat, capabilities: set<Capability>)
    ensures RosterOnly(c, c.SetCapabilities(account, capabilities).core)
  {
  }

  lemma RenameAccountIsRosterOnly(c: Core, account: nat, displayName: string)
    ensures RosterOnly(c, c.RenameAccount(account, displayName).core)
  {
    hide Trim;
  }

  lemma SetAccountProxiesIsRosterOnly(c: Core, account: nat, proxies: seq<ProxyConfig>)
    ensures RosterOnly(c, c.SetAccountProxies(account, proxies).core)
  {
  }

  lemma UpsertContactIsRosterOnly(c: Core, account: nat, jid: string, displayName: string, presence: ContactPresence,
                                  status: Option<string>)
    ensures RosterOnly(c, c.UpsertContact(account, jid, displayName, presence, status).core)
  {
    hide ValidJid, ContactName, ContactStatus;
  }

  lemma SyncRosterContactIsRosterOnly(c: Core, account: nat, jid: string, displayName: string,
                                      subscription: RosterSubscription)
    ensures RosterOnly(c, c.SyncRosterContact(account, jid, displayName, subscription).core)
  {
    hide ValidJid, ContactName;
  }

  lemma RemoveContactIsRosterOnly(c: Core, account: nat, jid: string)
    ensures RosterOnly(c, c.RemoveContact(account, jid).core)
  {
    hide ValidJid;
  }

  lemma UpdateContactPresenceIsRosterOnly(c: Core, account: nat, jid: string, presence: ContactPresence,
                                          status: Option<string>)
    ensures RosterOnly(c, c.UpdateContactPresence(account, jid, presence, status).core)
  {
    hide ValidJid, ContactStatus;
  }

  lemma ApplyConnectedIsRosterOnly(c: Core, account: nat, capabilities: set<Capability>)
    ensures RosterOnly(c, c.ApplyConnected(account, capabilities).core)
  {
  }

  lemma ApplyDisconnectedIsRosterOnly(c: Core, account: nat, recoverable: bool, detail: Option<string>,
                                      kind: DisconnectKind)
    ensures RosterOnly(c, c.ApplyDisconnected(account, recoverable, detail, kind).core)
  {
  }

  lemma RosterEventIsRosterOnly(c: Core, e: TransportEvent)
    requires !e.IncomingText? && !e.DeliveryUpdated?
    ensures RosterOnly(c, c.ApplyTransportEvent(e).core)
  {
    hide RosterOnly, Core.ApplyConnected, Core.ApplyDisconnected, Core.SetCapabilities, Core.SyncRosterContact;
    hide Core.RemoveContact, Core.UpdateContactPresence;
    match e
    case Connected(account, capabilities) => ApplyConnectedIsRosterOnly(c, account, capabilities);
    case Disconnected(account, recoverable, detail, kind) =>
      ApplyDisconnectedIsRosterOnly(c, account, recoverable, detail, kind);
    case CapabilitiesDiscovered(account, capabilities) =>
      SetCapabilitiesIsRosterOnly(c, account, capabilities);
      SameIsRosterOnly(c);
    case RosterContactUpsert(account, jid, displayName, subscription) =>
      SyncRosterContactIsRosterOnly(c, account, jid, displayName, subscription);
    case RosterContactRemoved(account, jid) => RemoveContactIsRosterOnly(c, account, jid);
    case ContactPresenceUpdated(account, jid, presence, status) =>
      UpdateContactPresenceIsRosterOnly(c, account, jid, presence, status);
  }

  lemma SameIsRosterOnly(c: Core)
    ensures RosterOnly(c, c)
  {
  }

  predicate IsRosterOp(op: Op) {
    op.OpAddAccount? || op.OpSetConnectionState? || op.OpSetCapabilities? || op.OpRenameAccount?
    || op.OpSetAccountProxies? || op.OpUpsertContact?
  }

  lemma RosterOpIsRosterOnly(c: Core, op: Op)
    requires IsRosterOp(op)
    ensures RosterOnly(c, Perform(c, op).core)
  {
    hide RosterOnly, Core.AddAccount, Core.SetConnectionState, Core.SetCapabilities, Core.RenameAccount;
    hide Core.SetAccountProxies, Core.UpsertContact;
    match op
    case OpAddAccount(jid, server, displayName) => AddAccountIsRosterOnly(c, jid, server, displayName);
    case OpSetConnectionState(account, state) => SetConnectionStateIsRosterOnly(c, account, state);
    case OpSetCapabilities(account, capabilities) => SetCapabilitiesIsRosterOnly(c, account, capabilities);
    case OpRenameAccount(account, displayName) => RenameAccountIsRosterOnly(c, account, displayName);
    case OpSetAccountProxies(account, proxies) => SetAccountProxiesIsRosterOnly(c, account, proxies);
    case OpUpsertContact(account, jid, displayName, presence, status) =>
      UpsertContactIsRosterOnly(c, account, jid, displayName, presence, status);
  }

  lemma RewriteSucceeds(c: Core, d: Core)
    requires d.(accounts := c.accounts, contacts := c.contacts, conversations := c.conversations,
                messages := c.messages, reactions := c.reactions, events := c.events) == c
    requires d.accounts.Keys <= c.accounts.Keys
    requires forall v :: v in d.conversations ==>
                           v in c.conversations && SameConversation(c.conversations[v], d.conversations[v])
    requires forall m :: m in d.messages ==> m in c.messages && SameMessage(c.messages[m], d.messages[m])
    requires forall r :: r in d.reactions ==> r in c.reactions && c.reactions[r] == d.reactions[r]
    ensures Succeeds(c, d)
  {
  }

  lemma PutMessageSucceeds(c: Core, message: nat, m: Message)
    requires message in c.messages && SameMessage(c.messages[message], m)
    ensures Succeeds(c, c.PutMessage(message, m))
  {
  }

  lemma SetDeliveryStateSucceeds(c: Core, message: nat, delivery: DeliveryState)
    ensures Succeeds(c, c.SetDeliveryState(message, delivery).core)
  {
    hide Succeeds, Core.PutMessage;
    SucceedsReflexive(c);
    if message in c.messages {
      PutMessageSucceeds(c, message, c.messages[message].(delivery := delivery));
    }
  }

  lemma AddReactionSucceeds(c: Core, message: nat, actor: string, emoji: string)
    ensures Succeeds(c, c.AddReaction(message, actor, emoji).core)
  {
    hide Core.CapabilityError, Trim;
  }

  lemma AddMessageSucceeds(c: Core, m: Message, now: nat)
    requires m.conversation in c.conversations && m.id == FreshId(c.nextMessage)
    ensures Succeeds(c, c.AddMessage(m, now).core)
  {
  }

  lemma FindOrCreateSucceeds(c: Core, account: nat, kind: ConversationKind, address: string, title: string, now: nat)
    ensures Succeeds(c, c.FindOrCreate(account, kind, address, title, now).core)
  {
    hide Core.HasConversation;
  }

  lemma ReceiveTextSucceeds(c: Core, conversation: nat, sender: string, body: string, now: nat)
    ensures Succeeds(c, c.ReceiveText(conversation, sender, body, now).core)
  {
    hide Succeeds;
    SucceedsReflexive(c);
    if c.ReceiveText(conversation, sender, body, now).result.Ok? {
      AddMessageSucceeds(c, Message(FreshId(c.nextMessage), conversation, sender, CheckedBody(body).value, Incoming,
                                    TextMessage, now, Delivered, None, None), now);
    }
  }

  lemma SendTextSucceeds(c: Core, conversation: nat, sender: string, body: string, inReplyTo: Option<nat>, now: nat)
    ensures Succeeds(c, c.SendText(conversation, sender, body, inReplyTo, now).core)
  {
    hide Succeeds;
    SucceedsReflexive(c);
    if c.SendText(conversation, sender, body, inReplyTo, now).result.Ok? {
      AddMessageSucceeds(c, Message(FreshId(c.nextMessage), conversation, sender, CheckedBody(body).value, Outgoing,
                                    TextMessage, now, Pending, inReplyTo, None), now);
    }
  }

  /** No operation reuses an identifier or moves a record to another owner. */
  lemma OpSucceeds(c: Core, op: Op)
    ensures Succeeds(c, Perform(c, op).core)
  {
    hide Succeeds, RosterOnly, Core.ApplyTransportEvent, Core.SendText, Core.ReceiveText, Core.OpenConversation;
    hide Core.AddReaction, Core.MarkConversationRead, Core.Attach, Core.SetDeliveryState, Core.DeleteConversation;
    hide Core.DeleteAccount;
    match op
    case OpTransportEvent(event) => TransportEventSucceeds(c, event);
    case OpSendText(conversation, sender, body, inReplyTo, now) =>
      SendTextSucceeds(c, conversation, sender, body, inReplyTo, now);
    case OpReceiveText(conversation, sender, body, now) => ReceiveTextSucceeds(c, conversation, sender, body, now);
    case OpOpenConversation(account, kind, address, title, now) =>
      OpenConversationSucceeds(c, account, kind, address, title, now);
    case OpAddReaction(message, actor, emoji) => AddReactionSucceeds(c, message, actor, emoji);
    case OpMarkConversationRead(conversation) => MarkConversationReadSucceeds(c, conversation);
    case OpAttach(message, kind, attachment) => AttachSucceeds(c, message, kind, attachment);
    case OpSetDeliveryState(message, delivery) => SetDeliveryStateSucceeds(c, message, delivery);
    case OpDeleteConversation(conversation) => DeleteConversationSucceeds(c, conversation);
    case OpDeleteAccount(account) => DeleteAccountSucceeds(c, account);
    case _ =>
      RosterOpIsRosterOnly(c, op);
      RosterChangeSucceeds(c, Perform(c, op).core);
  }

  lemma OpenConversationSucceeds(c: Core, account: nat, kind: ConversationKind, address: string, title: string,
                                 now: nat)
    ensures Succeeds(c, c.OpenConversation(account, kind, address, title, now).core)
  {
    hide Succeeds, ValidJid, Core.FindOrCreate;
    SucceedsReflexive(c);
    FindOrCreateSucceeds(c, account, kind, address, title, now);
  }

  lemma MarkConversationReadSucceeds(c: Core, conversation: nat)
    ensures Succeeds(c, c.MarkConversationRead(conversation).core)
  {
    hide Succeeds;
    RewriteSucceeds(c, c.MarkConversationRead(conversation).core);
  }

  lemma AttachSucceeds(c: Core, message: nat, kind: MessageKind, attachment: Attachment)
    ensures Succeeds(c, c.Attach(message, kind, attachment).core)
  {
    hide Succeeds, Core.CapabilityError, Core.PutMessage;
    SucceedsReflexive(c);
    if message in c.messages {
      PutMessageSucceeds(c, message, c.messages[message].(kind := kind, attachment := Some(attachment)));
    }
  }

  lemma DeleteConversationSucceeds(c: Core, conversation: nat)
    ensures Succeeds(c, c.DeleteConversation(conversation).core)
  {
    hide Succeeds;
    RewriteSucceeds(c, c.DeleteConversation(conversation).core);
  }

  lemma DeleteAccountSucceeds(c: Core, account: nat)
    ensures Succeeds(c, c.DeleteAccount(account).core)
  {
    hide Succeeds;
    RewriteSucceeds(c, c.DeleteAccount(account).core);
  }

  lemma ReceiveTransportTextSucceeds(c: Core, account: nat, kind: ConversationKind, address: string, sender: string,
                                     body: string, now: nat)
    ensures Succeeds(c, c.ReceiveTransportText(account, kind, address, sender, body, now).core)
  {
    hide Succeeds;
    SucceedsReflexive(c);
    if account in c.accounts && ValidJid(address) && CheckedBody(body).Ok? {
      var title := Split(address, '@')[0];
      var target := c.FindOrCreate(account, kind, address, title, now);
      FindOrCreateSucceeds(c, account, kind, address, title, now);
      ReceiveTextSucceeds(target.core, target.result.value, sender, body, now);
      SucceedsTransitive(c, target.core, target.core.ReceiveText(target.result.value, sender, body, now).core);
    }
  }

  lemma TransportEventSucceeds(c: Core, e: TransportEvent)
    ensures Succeeds(c, c.ApplyTransportEvent(e).core)
  {
    hide Succeeds, RosterOnly, Core.ReceiveTransportText, Core.SetDeliveryState;
    match e
    case IncomingText(account, kind, address, sender, body, receivedAt) =>
      ReceiveTransportTextSucceeds(c, account, kind, address, sender, body, receivedAt);
    case DeliveryUpdated(account, sender, message, delivery) =>
      SucceedsReflexive(c);
      SetDeliveryStateSucceeds(c, message, delivery);
    case _ =>
      RosterEventIsRosterOnly(c, e);
      RosterChangeSucceeds(c, c.ApplyTransportEvent(e).core);
  }

  lemma {:induction false} RunSucceeds(c: Core, ops: seq<Op>)
    ensures Succeeds(c, RunOps(c, ops))
    decreases |ops|
  {
    hide Perform, Succeeds;
    SucceedsReflexive(c);
    if ops != [] {
      var d := Perform(c, ops[0]).core;
      OpSucceeds(c, ops[0]);
      RunSucceeds(d, ops[1..]);
      SucceedsTransitive(c, d, RunOps(d, ops[1..]));
    }
  }
}
