/** The domain core as the program keeps it: maps, allocators and an event log updated in place. Every method is
    verified against the state and answer `CoreState` specifies for it. */
module DomainCore {
  import opened Wrappers
  import opened Text
  import opened Domain
  import opened Ordering
  import opened CoreState
  import opened CoreInvariant
  import opened CoreCascade
  import opened CoreLookup
  import opened CoreSnapshot
  import opened CoreOutbox

  /** Later records replace earlier ones, as collecting an iterator into a map does. */
  method CollectLoop<T, K(==)>(xs: seq<T>, key: T -> K) returns (m: map<K, T>)
    ensures m == Collect(xs, key)
  {
    m := map[];
    for i := 0 to |xs|
      invariant m == Collect(xs[..i], key)
    {
      assert xs[..i + 1][..i] == xs[..i];
      m := m[key(xs[i]) := xs[i]];
    }
    assert xs[..|xs|] == xs;
  }

  /** Lists a map's records in key order, whatever order they are visited in. */
  method SortedValues<T(==, !new), K(==, !new)>(m: map<K, T>, key: T -> K, less: (K, K) -> bool)
    returns (xs: seq<T>)
    requires StrictOrder(less) && KeyedBy(m, key)
    ensures xs == Listing(m, key, less)
  {
    xs := [];
    var todo := m.Keys;
    while todo != {}
      invariant todo <= m.Keys
      invariant Ascending(xs, key, less)
      invariant forall x :: x in xs <==> key(x) in m.Keys - todo && m[key(x)] == x
      decreases todo
    {
      var k :| k in todo;
      InsertElements(m[k], xs, key, less);
      assert forall i :: 0 <= i < |xs| ==> xs[i] in xs && key(xs[i]) != k;
      InsertKeepsAscending(m[k], xs, key, less);
      xs := Insert(m[k], xs, key, less);
      todo := todo - {k};
    }
    AscendingIsUnique(xs, Listing(m, key, less), key, less);
  }

  class MindChatCore {
    var nextAccountId: nat
    var nextConversationId: nat
    var nextMessageId: nat
    var nextReactionId: nat
    var accounts: map<nat, Account>
    var contacts: map<(nat, string), Contact>
    var conversations: map<nat, Conversation>
    var messages: map<nat, Message>
    var reactions: map<nat, Reaction>
    var events: seq<CoreEvent>

    ghost function Model(): Core
      reads this
    {
      Core(nextAccountId, nextConversationId, nextMessageId, nextReactionId, accounts, contacts, conversations,
           messages, reactions, events)
    }

    ghost predicate Valid()
      reads this
    {
      Inv(Model())
    }

    constructor Default()
      ensures Valid() && Model() == EmptyCore
    {
      nextAccountId, nextConversationId, nextMessageId, nextReactionId := 0, 0, 0, 0;
      accounts, contacts, conversations, messages, reactions := map[], map[], map[], map[], map[];
      events := [];
      new;
      EmptyCoreInv();
    }

    /** Restores any snapshot, consistent or not. */
    constructor FromSnapshot(s: Snapshot)
      ensures Model() == Restore(s)
    {
      hide Collect, MaxKey;
      nextAccountId := MaxKey(s.accounts, AccountKey) + 1;
      nextConversationId := MaxKey(s.conversations, ConversationKey) + 1;
      nextMessageId := MaxKey(s.messages, MessageKey) + 1;
      nextReactionId := MaxKey(s.reactions, ReactionKey) + 1;
      var byAccount := CollectLoop(s.accounts, AccountKey);
      var byContact := CollectLoop(s.contacts, ContactKey);
      var byConversation := CollectLoop(s.conversations, ConversationKey);
      var byMessage := CollectLoop(s.messages, MessageKey);
      var byReaction := CollectLoop(s.reactions, ReactionKey);
      accounts, contacts, conversations, messages, reactions :=
        byAccount, byContact, byConversation, byMessage, byReaction;
      events := [];
    }

    method TakeSnapshot() returns (s: Snapshot)
      requires Keyed(Model())
      ensures s == Take(Model())
    {
      NatLessIsStrict();
      ContactLessIsStrict();
      var a := SortedValues(accounts, AccountKey, NatLess);
      var c := SortedValues(contacts, ContactKey, ContactLess);
      var v := SortedValues(conversations, ConversationKey, NatLess);
      var m := SortedValues(messages, MessageKey, NatLess);
      var r := SortedValues(reactions, ReactionKey, NatLess);
      s := Snapshot(a, c, v, m, r);
    }

    // ----- accounts ---------------------------------------------------------------------

    method AllocateAccountId() returns (id: nat)
      modifies this`nextAccountId
      ensures id == FreshId(old(nextAccountId)) && nextAccountId == id + 1
    {
      id := if nextAccountId < 1 then 1 else nextAccountId;
      nextAccountId := id + 1;
    }

    method AddAccount(jid: string, server: string, displayName: string) returns (r: Result<nat, CoreError>)
      modifies this
      ensures old(Valid()) ==> Valid()
      ensures Ret(Model(), r) == old(Model()).AddAccount(jid, server, displayName)
    {
      hide Inv;
      if Inv(Model()) { AddAccountKeepsInv(Model(), jid, server, displayName); }
      if !ValidJid(jid) { return Err(InvalidJid); }
      if !ValidServer(server) { return Err(InvalidServer); }
      var id := AllocateAccountId();
      accounts := accounts[id := Account(id, jid, server, displayName, Offline, {}, None, None, true, [])];
      events := events + [AccountChanged(id)];
      r := Ok(id);
    }

    method SetConnectionState(account: nat, state: ConnectionState) returns (r: Result<(), CoreError>)
      modifies this`accounts, this`events
      ensures old(Valid()) ==> Valid()
      ensures Ret(Model(), r) == old(Model()).SetConnectionState(account, state)
    {
      hide Inv;
      if Inv(Model()) { OpKeepsInv(Model(), OpSetConnectionState(account, state)); }
      if account !in accounts { return Err(UnknownAccount(account)); }
      var a := accounts[account].(state := state);
      if state == Connecting || state == Online {
        a := a.(error := None);
        a := a.(disconnectKind := None);
      }
      accounts := accounts[account := a];
      events := events + [AccountChanged(account)];
      r := Ok(());
    }

    method SetCapabilities(account: nat, capabilities: set<Capability>) returns (r: Result<(), CoreError>)
      modifies this`accounts, this`events
      ensures old(Valid()) ==> Valid()
      ensures Ret(Model(), r) == old(Model()).SetCapabilities(account, capabilities)
    {
      hide Inv;
      if Inv(Model()) { OpKeepsInv(Model(), OpSetCapabilities(account, capabilities)); }
      if account !in accounts { return Err(UnknownAccount(account)); }
      accounts := accounts[account := accounts[account].(capabilities := capabilities)];
      events := events + [AccountChanged(account)];
      r := Ok(());
    }

    method UpdateAccountDisplayName(account: nat, displayName: string) returns (r: Result<(), CoreError>)
      modifies this`accounts, this`events
      ensures old(Valid()) ==> Valid()
      ensures Ret(Model(), r) == old(Model()).RenameAccount(account, displayName)
    {
      hide Inv;
      if Inv(Model()) { OpKeepsInv(Model(), OpRenameAccount(account, displayName)); }
      if Trim(displayName) == "" { return Err(EmptyDisplayName); }
      if account !in accounts { return Err(UnknownAccount(account)); }
      accounts := accounts[account := accounts[account].(displayName := displayName)];
      events := events + [AccountChanged(account)];
      r := Ok(());
    }

    method SetAccountProxies(account: nat, proxies: seq<ProxyConfig>) returns (r: Result<(), CoreError>)
      modifies this`accounts, this`events
      ensures old(Valid()) ==> Valid()
      ensures Ret(Model(), r) == old(Model()).SetAccountProxies(account, proxies)
    {
      hide Inv;
      if Inv(Model()) { OpKeepsInv(Model(), OpSetAccountProxies(account, proxies)); }
      if account !in accounts { return Err(UnknownAccount(account)); }
      accounts := accounts[account := accounts[account].(proxies := proxies)];
      events := events + [AccountChanged(account)];
      r := Ok(());
    }

    // ----- roster -----------------------------------------------------------------------

    method UpsertContact(account: nat, jid: string, displayName: string, presence: ContactPresence,
                         status: Option<string>) returns (r: Result<(), CoreError>)
      modifies this`contacts, this`events
      ensures old(Valid()) ==> Valid()
      ensures Ret(Model(), r) == old(Model()).UpsertContact(account, jid, displayName, presence, status)
    {
      hide Inv;
      if Inv(Model()) { OpKeepsInv(Model(), OpUpsertContact(account, jid, displayName, presence, status)); }
      if account !in accounts { return Err(UnknownAccount(account)); }
      if !ValidJid(jid) { return Err(InvalidJid); }
      var name := ContactName(displayName, jid);
      var shown := ContactStatus(status);
      contacts := contacts[(account, jid) := Contact(account, jid, name, presence, shown, NoSubscription)];
      events := events + [RosterChanged(account)];
      r := Ok(());
    }

    method SyncRosterContact(account: nat, jid: string, displayName: string, subscription: RosterSubscription)
      returns (r: Result<bool, CoreError>)
      modifies this`contacts, this`events
      ensures old(Valid()) ==> Valid()
      ensures Ret(Model(), r) == old(Model()).SyncRosterContact(account, jid, displayName, subscription)
    {
      hide Inv;
      if Inv(Model()) { SyncRosterContactKeepsInv(Model(), account, jid, displayName, subscription); }
      if account !in accounts { return Ok(false); }
      if !ValidJid(jid) { return Ok(false); }
      var name := ContactName(displayName, jid);
      var presence, status := PresenceOffline, None;
      if (account, jid) in contacts {
        presence, status := contacts[(account, jid)].presence, contacts[(account, jid)].status;
      }
      contacts := contacts[(account, jid) := Contact(account, jid, name, presence, status, subscription)];
      events := events + [RosterChanged(account)];
      r := Ok(true);
    }

    method RemoveContact(account: nat, jid: string) returns (r: Result<bool, CoreError>)
      modifies this`contacts, this`events
      ensures old(Valid()) ==> Valid()
      ensures Ret(Model(), r) == old(Model()).RemoveContact(account, jid)
    {
      hide Inv;
      if Inv(Model()) { RemoveContactKeepsInv(Model(), account, jid); }
      if account !in accounts { return Ok(false); }
      if !ValidJid(jid) { return Ok(false); }
      var removed := (account, jid) in contacts;
      contacts := contacts - {(account, jid)};
      assert !removed ==> contacts == old(contacts);
      if removed {
        events := events + [RosterChanged(account)];
      }
      r := Ok(removed);
    }

    method UpdateContactPresence(account: nat, jid: string, presence: ContactPresence, status: Option<string>)
      returns (r: Result<bool, CoreError>)
      modifies this`contacts, this`events
      ensures old(Valid()) ==> Valid()
      ensures Ret(Model(), r) == old(Model()).UpdateContactPresence(account, jid, presence, status)
    {
      hide Inv;
      if Inv(Model()) { UpdateContactPresenceKeepsInv(Model(), account, jid, presence, status); }
      if account !in accounts { return Ok(false); }
      if !ValidJid(jid) { return Ok(false); }
      if (account, jid) !in contacts { return Ok(false); }
      var contact := contacts[(account, jid)].(presence := presence);
      contact := contact.(status := ContactStatus(status));
      contacts := contacts[(account, jid) := contact];
      events := events + [RosterChanged(account)];
      r := Ok(true);
    }

    // ----- conversations ----------------------------------------------------------------

    method AllocateConversationId() returns (id: nat)
      modifies this`nextConversationId
      ensures id == FreshId(old(nextConversationId)) && nextConversationId == id + 1
    {
      id := if nextConversationId < 1 then 1 else nextConversationId;
      nextConversationId := id + 1;
    }

    /** Visits the conversations in no particular order and reports the first match. */
    method FindConversation(account: nat, kind: ConversationKind, address: string) returns (r: Option<nat>)
      ensures r.Some? ==> Model().IsConversation(r.value, account, kind, address)
      ensures r.None? ==> !Model().HasConversation(account, kind, address)
    {
      var todo := conversations.Keys;
      while todo != {}
        invariant todo <= conversations.Keys
        invariant forall v :: v in conversations && v !in todo ==> !Model().IsConversation(v, account, kind, address)
        decreases todo
      {
        var v :| v in todo;
        if conversations[v].account == account && conversations[v].kind == kind && conversations[v].address == address {
          return Some(v);
        }
        todo := todo - {v};
      }
      r := None;
    }

    method FindOrCreate(account: nat, kind: ConversationKind, address: string, title: string, now: nat)
      returns (id: nat)
      requires account in accounts
      modifies this
      ensures id in conversations && (old(Valid()) ==> Valid())
      ensures Opens(old(Model()), Model(), id, account, kind, address, title, now)
      ensures Unambiguous(old(Model())) ==>
                Ret(Model(), Ok(id)) == old(Model()).FindOrCreate(account, kind, address, title, now)
    {
      hide Inv, Unambiguous;
      ghost var c := Model();
      if Inv(c) {
        InvIsUnambiguous(c);
        FindOrCreateKeepsInv(c, account, kind, address, title, now);
      }
      var existing := FindConversation(account, kind, address);
      match existing {
        case Some(found) =>
          id := found;
        case None =>
          id := AllocateConversationId();
          conversations := conversations[id := Conversation(id, account, kind, address, title, 0, now)];
          events := events + [ConversationChanged(id)];
      }
      if Unambiguous(c) { OpensOnlyOne(c, Model(), id, account, kind, address, title, now); }
    }

    /** Where several conversations share the key, any of them is opened. */
    method OpenConversation(account: nat, kind: ConversationKind, address: string, title: string, now: nat)
      returns (r: Result<nat, CoreError>)
      modifies this
      ensures old(Valid()) ==> Valid()
      ensures r.Err? ==> Ret(Model(), r) == old(Model()).OpenConversation(account, kind, address, title, now)
      ensures r.Ok? ==>
                && old(Model()).OpenConversation(account, kind, address, title, now).result.Ok?
                && Opens(old(Model()), Model(), r.value, account, kind, address, title, now)
      ensures Unambiguous(old(Model())) ==>
                Ret(Model(), r) == old(Model()).OpenConversation(account, kind, address, title, now)
    {
      hide Inv, Opens, Unambiguous, Core.FindOrCreate;
      ghost var c := Model();
      TargetOpens(c, account, kind, address, title, now);
      if !ValidJid(address) { return Err(InvalidConversationAddress); }
      if account !in accounts { return Err(UnknownAccount(account)); }
      if kind == MultiUserChat && MucCapability !in accounts[account].capabilities {
        return Err(CapabilityUnavailable(MucCapability));
      }
      var id := FindOrCreate(account, kind, address, title, now);
      r := Ok(id);
    }

    method TouchConversation(conversation: nat, now: nat, incrementUnread: bool)
      requires conversation in conversations
      modifies this`conversations, this`events
      ensures Model() == old(Model()).Touch(conversation, now, incrementUnread)
    {
      var v := conversations[conversation].(lastActivity := now);
      if incrementUnread && v.unread < MAX_UNREAD {
        v := v.(unread := v.unread + 1);
      }
      conversations := conversations[conversation := v];
      events := events + [ConversationChanged(conversation)];
    }

    method MarkConversationRead(conversation: nat) returns (r: Result<(), CoreError>)
      modifies this`conversations, this`events
      ensures old(Valid()) ==> Valid()
      ensures Ret(Model(), r) == old(Model()).MarkConversationRead(conversation)
    {
      hide Inv;
      if Inv(Model()) { MarkReadKeepsInv(Model(), conversation); }
      if conversation !in conversations { return Err(UnknownConversation(conversation)); }
      conversations := conversations[conversation := conversations[conversation].(unread := 0)];
      events := events + [ConversationChanged(conversation)];
      r := Ok(());
    }

    // ----- messages ---------------------------------------------------------------------

    method AllocateMessageId() returns (id: nat)
      modifies this`nextMessageId
      ensures id == FreshId(old(nextMessageId)) && nextMessageId == id + 1
    {
      id := if nextMessageId < 1 then 1 else nextMessageId;
      nextMessageId := id + 1;
    }

    method SendText(conversation: nat, sender: string, body: string, inReplyTo: Option<nat>, now: nat)
      returns (r: Result<nat, CoreError>)
      modifies this
      ensures old(Valid()) ==> Valid()
      ensures Ret(Model(), r) == old(Model()).SendText(conversation, sender, body, inReplyTo, now)
    {
      hide Inv;
      if Inv(Model()) { SendTextKeepsInv(Model(), conversation, sender, body, inReplyTo, now); }
      if conversation !in conversations { return Err(UnknownConversation(conversation)); }
      if inReplyTo.Some? {
        if inReplyTo.value !in messages { return Err(UnknownMessage(inReplyTo.value)); }
        if messages[inReplyTo.value].conversation != conversation { return Err(InvalidReplyTarget); }
      }
      var checked := CheckedBody(body);
      if checked.Err? { return Err(checked.error); }
      var id := AllocateMessageId();
      messages := messages[id := Message(id, conversation, sender, checked.value, Outgoing, TextMessage, now, Pending,
                                         inReplyTo, None)];
      TouchConversation(conversation, now, false);
      events := events + [MessageAdded(id)];
      r := Ok(id);
    }

    method ReceiveText(conversation: nat, sender: string, body: string, now: nat) returns (r: Result<nat, CoreError>)
      modifies this
      ensures old(Valid()) ==> Valid()
      ensures Ret(Model(), r) == old(Model()).ReceiveText(conversation, sender, body, now)
    {
      hide Inv;
      if Inv(Model()) { ReceiveTextKeepsInv(Model(), conversation, sender, body, now); }
      if conversation !in conversations { return Err(UnknownConversation(conversation)); }
      var checked := CheckedBody(body);
      if checked.Err? { return Err(checked.error); }
      var id := AllocateMessageId();
      messages := messages[id := Message(id, conversation, sender, checked.value, Incoming, TextMessage, now,
                                         Delivered, None, None)];
      TouchConversation(conversation, now, true);
      events := events + [MessageAdded(id)];
      r := Ok(id);
    }

    /** Where several conversations share the key, the text lands in any of them. */
    method ReceiveTransportText(account: nat, kind: ConversationKind, address: string, sender: string, body: string,
                                now: nat) returns (r: Result<Option<nat>, CoreError>)
      modifies this
      ensures old(Valid()) ==> Valid()
      ensures Receives(old(Model()), Model(), r, account, kind, address, sender, body, now)
      ensures Unambiguous(old(Model())) ==>
                Ret(Model(), r) == old(Model()).ReceiveTransportText(account, kind, address, sender, body, now)
    {
      hide Inv, Opens, Unambiguous, CheckedBody, ValidJid, Split, Core.FindOrCreate;
      ghost var c := Model();
      if account !in accounts { return Ok(None); }
      if !ValidJid(address) { return Ok(None); }
      var checked := CheckedBody(body);
      if checked.Err? { return Err(checked.error); }
      var conversation := FindOrCreate(account, kind, address, Split(address, '@')[0], now);
      ghost var t := Model();
      var received := ReceiveText(conversation, sender, body, now);
      TextLands(t, conversation, sender, body, now);
      match received {
        case Err(e) => r := Err(e);
        case Ok(id) => r := Ok(Some(id));
      }
      assert Opens(c, t, conversation, account, kind, address, Split(address, '@')[0], now);
      if Unambiguous(c) { ReceivesOnlyOne(c, Model(), r, account, kind, address, sender, body, now); }
    }

    method Attach(message: nat, kind: MessageKind, attachment: Attachment) returns (r: Result<(), CoreError>)
      modifies this`messages, this`events
      ensures old(Valid()) ==> Valid()
      ensures Ret(Model(), r) == old(Model()).Attach(message, kind, attachment)
    {
      hide Inv;
      if Inv(Model()) { OpKeepsInv(Model(), OpAttach(message, kind, attachment)); }
      if kind == TextMessage { return Err(CapabilityUnavailable(HttpFileUpload)); }
      if message !in messages { return Err(UnknownMessage(message)); }
      var refused := EnsureConversationCapability(messages[message].conversation, HttpFileUpload);
      if refused.Some? { return Err(refused.value); }
      var m := messages[message].(kind := kind);
      m := m.(attachment := Some(attachment));
      messages := messages[message := m];
      events := events + [MessageChanged(message)];
      r := Ok(());
    }

    method EnsureConversationCapability(conversation: nat, capability: Capability) returns (r: Option<CoreError>)
      ensures r == Model().CapabilityError(conversation, capability)
    {
      if conversation !in conversations { return Some(UnknownConversation(conversation)); }
      var owner := conversations[conversation].account;
      if owner !in accounts { return Some(UnknownAccount(owner)); }
      r := if capability in accounts[owner].capabilities then None else Some(CapabilityUnavailable(capability));
    }

    method AddReaction(message: nat, actor: string, emoji: string) returns (r: Result<nat, CoreError>)
      modifies this`nextReactionId, this`reactions, this`events
      ensures old(Valid()) ==> Valid()
      ensures Ret(Model(), r) == old(Model()).AddReaction(message, actor, emoji)
    {
      hide Inv;
      if Inv(Model()) { AddReactionKeepsInv(Model(), message, actor, emoji); }
      if message !in messages { return Err(UnknownMessage(message)); }
      var refused := EnsureConversationCapability(messages[message].conversation, MessageReactions);
      if refused.Some? { return Err(refused.value); }
      if Trim(emoji) == "" { return Err(EmptyReaction); }
      var id := if nextReactionId < 1 then 1 else nextReactionId;
      nextReactionId := id + 1;
      reactions := reactions[id := Reaction(id, message, emoji, actor)];
      events := events + [MessageChanged(message)];
      r := Ok(id);
    }

    method SetDeliveryState(message: nat, delivery: DeliveryState) returns (r: Result<(), CoreError>)
      modifies this`messages, this`events
      ensures old(Valid()) ==> Valid()
      ensures Ret(Model(), r) == old(Model()).SetDeliveryState(message, delivery)
    {
      hide Inv;
      if Inv(Model()) { OpKeepsInv(Model(), OpSetDeliveryState(message, delivery)); }
      if message !in messages { return Err(UnknownMessage(message)); }
      messages := messages[message := messages[message].(delivery := delivery)];
      events := events + [MessageChanged(message)];
      r := Ok(());
    }

    method ApplyDeliveryUpdate(account: nat, sender: string, message: nat, delivery: DeliveryState)
      returns (r: Result<bool, CoreError>)
      modifies this`messages, this`events
      ensures old(Valid()) ==> Valid()
      ensures Ret(Model(), r) == old(Model()).ApplyDeliveryUpdate(account, sender, message, delivery)
    {
      hide Inv;
      if account !in accounts || !ValidJid(sender) { return Ok(false); }
      if message !in messages { return Ok(false); }
      if messages[message].direction != Outgoing { return Ok(false); }
      if messages[message].conversation !in conversations { return Ok(false); }
      var conversation := conversations[messages[message].conversation];
      if conversation.account != account || conversation.kind != Direct || conversation.address != sender {
        return Ok(false);
      }
      if DeliveryRank(delivery) <= DeliveryRank(messages[message].delivery) { return Ok(false); }
      var done := SetDeliveryState(message, delivery);
      if done.Err? { assert false; }
      r := Ok(true);
    }

    method PendingOutgoingMessages(account: nat) returns (r: Result<seq<OutgoingMessage>, CoreError>)
      ensures account !in accounts ==> r == Err(UnknownAccount(account))
      ensures account in accounts ==> r == Ok(Outbox(Model(), account))
    {
      if account !in accounts { return Err(UnknownAccount(account)); }
      NatLessIsStrict();
      var outgoing: seq<OutgoingMessage> := [];
      var todo := messages.Keys;
      while todo != {}
        invariant todo <= messages.Keys
        invariant Ascending(outgoing, EnvelopeKey, NatLess)
        invariant forall e :: e in outgoing <==>
                                e.message !in todo && Model().Waiting(account, e.message)
                                && e == Model().Envelope(e.message)
        decreases todo
      {
        var m :| m in todo;
        var owner := messages[m].conversation;
        if Queued(messages[m]) && owner in conversations && conversations[owner].account == account {
          var envelope := OutgoingMessage(account, owner, m, conversations[owner].kind, conversations[owner].address,
                                          messages[m].body, messages[m].inReplyTo);
          InsertElements(envelope, outgoing, EnvelopeKey, NatLess);
          assert forall i :: 0 <= i < |outgoing| ==> outgoing[i] in outgoing && outgoing[i].message != m;
          InsertKeepsAscending(envelope, outgoing, EnvelopeKey, NatLess);
          outgoing := Insert(envelope, outgoing, EnvelopeKey, NatLess);
        }
        todo := todo - {m};
      }
      OutboxIsUnique(Model(), account, outgoing);
      r := Ok(outgoing);
    }

    // ----- removal ----------------------------------------------------------------------

    /** Drops one conversation's messages one by one, each with its reactions. */
    method RemoveConversationState(conversation: nat)
      modifies this`conversations, this`messages, this`reactions
      ensures Model() == old(Model()).Without({conversation})
    {
      hide Core.Without, MessagesBut, ReactionsBut;
      var doomed := set m | m in messages && messages[m].conversation == conversation;
      var todo := doomed;
      assert doomed - todo == {};
      NoMessageGone(messages, reactions);
      while todo != {}
        invariant todo <= doomed && conversations == old(conversations)
        invariant messages == MessagesBut(old(messages), doomed - todo)
        invariant reactions == ReactionsBut(old(reactions), doomed - todo)
        decreases todo
      {
        var m :| m in todo;
        OneMoreMessage(old(messages), old(reactions), doomed - todo, m);
        reactions := ReactionsBut(reactions, {m});
        messages := messages - {m};
        assert doomed - todo + {m} == doomed - (todo - {m});
        todo := todo - {m};
      }
      conversations := conversations - {conversation};
      assert doomed - todo == doomed;
      WithoutOne(old(Model()), conversation, doomed);
    }

    method DeleteConversation(conversation: nat) returns (r: Result<(), CoreError>)
      modifies this`conversations, this`messages, this`reactions, this`events
      ensures old(Valid()) ==> Valid()
      ensures Ret(Model(), r) == old(Model()).DeleteConversation(conversation)
    {
      hide Inv;
      if Inv(Model()) { DeleteConversationKeepsInv(Model(), conversation); }
      if conversation !in conversations { return Err(UnknownConversation(conversation)); }
      RemoveConversationState(conversation);
      events := events + [ConversationChanged(conversation)];
      r := Ok(());
    }

    /** Drops an account's conversations one by one, in no particular order. */
    method RemoveConversationsOf(account: nat)
      modifies this`conversations, this`messages, this`reactions
      ensures Model() == old(Model()).Without(old(Model()).ConversationsOf(account))
    {
      hide Core.Without;
      ghost var before := Model();
      var owned := set v | v in conversations && conversations[v].account == account;
      var todo := owned;
      assert owned - todo == {};
      WithoutNone(before);
      while todo != {}
        invariant todo <= owned
        invariant Model() == before.Without(owned - todo)
        decreases todo
      {
        var v :| v in todo;
        RemoveConversationState(v);
        WithoutComposes(before, owned - todo, {v});
        assert owned - todo + {v} == owned - (todo - {v});
        todo := todo - {v};
      }
      assert owned - todo == before.ConversationsOf(account);
    }

    method DeleteAccount(account: nat) returns (r: Result<(), CoreError>)
      modifies this`accounts, this`contacts, this`conversations, this`messages, this`reactions, this`events
      ensures old(Valid()) ==> Valid()
      ensures Ret(Model(), r) == old(Model()).DeleteAccount(account)
    {
      hide Inv, Core.Without;
      if Inv(Model()) { DeleteAccountKeepsInv(Model(), account); }
      if account !in accounts { return Err(UnknownAccount(account)); }
      ghost var before := Model();
      RemoveConversationsOf(account);
      WithoutKeepsRoster(before, before.ConversationsOf(account));
      contacts := map k | k in contacts && k.0 != account :: contacts[k];
      accounts := accounts - {account};
      events := events + [AccountChanged(account)];
      r := Ok(());
    }

    // ----- events -----------------------------------------------------------------------

    method ApplyTransportEvent(e: TransportEvent) returns (r: Result<Option<nat>, CoreError>)
      modifies this
      ensures old(Valid()) ==> Valid()
      ensures Applies(old(Model()), Model(), r, e)
      ensures Unambiguous(old(Model())) ==> Ret(Model(), r) == old(Model()).ApplyTransportEvent(e)
    {
      hide Inv, Unambiguous, Core.ReceiveTransportText, Receives;
      if Inv(Model()) {
        InvIsUnambiguous(Model());
        TransportEventKeepsInv(Model(), e);
      }
      r := Ok(None);
      match e
      case Connected(account, capabilities) =>
        if account !in accounts { return; }
        accounts := accounts[account := accounts[account].(state := Online, capabilities := capabilities,
                                                            error := None, disconnectKind := None)];
        events := events + [AccountChanged(account)];
      case Disconnected(account, recoverable, detail, kind) =>
        if account !in accounts { return; }
        accounts := accounts[account := accounts[account].(state := if recoverable then Offline else Failed,
                                                            error := detail, disconnectKind := Some(kind))];
        events := events + [AccountChanged(account)];
      case CapabilitiesDiscovered(account, capabilities) =>
        if account in accounts {
          var done := SetCapabilities(account, capabilities);
          if done.Err? { assert false; }
        }
      case RosterContactUpsert(account, jid, displayName, subscription) =>
        var done := SyncRosterContact(account, jid, displayName, subscription);
        if done.Err? { assert false; }
      case RosterContactRemoved(account, jid) =>
        var done := RemoveContact(account, jid);
        if done.Err? { assert false; }
      case ContactPresenceUpdated(account, jid, presence, status) =>
        var done := UpdateContactPresence(account, jid, presence, status);
        if done.Err? { assert false; }
      case IncomingText(account, kind, address, sender, body, receivedAt) =>
        r := ReceiveTransportText(account, kind, address, sender, body, receivedAt);
      case DeliveryUpdated(account, sender, message, delivery) =>
        var done := ApplyDeliveryUpdate(account, sender, message, delivery);
        if done.Err? { assert false; }
    }

    /** Hands over the log and starts an empty one. */
    method DrainEvents() returns (log: seq<CoreEvent>)
      modifies this`events
      ensures old(Valid()) ==> Valid()
      ensures log == old(events) && Model() == old(Model()).(events := [])
    {
      hide Inv;
      log := events;
      if Inv(Model()) { DrainKeepsInv(Model()); }
      events := [];
    }
  }
}
