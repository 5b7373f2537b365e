/** What each operation of the core does to which record, and that it does nothing else: stated field by field, without
    the functions that compute it. */
module CoreEffects {
  import opened Wrappers
  import opened Text
  import opened Domain
  import opened CoreState
  import opened CoreInvariant

  // ----- frames ------------------------------------------------------------------------------------------------

  /** At most the record of account `a` differs, and one event says so. */
  ghost predicate OnlyAccount(c: Core, d: Core, a: nat) {
    && d == c.(accounts := d.accounts, events := c.events + [AccountChanged(a)])
    && (forall b :: b != a ==> (b in d.accounts <==> b in c.accounts))
    && (forall b :: b != a && b in c.accounts ==> d.accounts[b] == c.accounts[b])
  }

  ghost predicate OnlyContact(c: Core, d: Core, account: nat, jid: string) {
    && d == c.(contacts := d.contacts, events := c.events + [RosterChanged(account)])
    && (forall k :: k != (account, jid) ==> (k in d.contacts <==> k in c.contacts))
    && (forall k :: k != (account, jid) && k in c.contacts ==> d.contacts[k] == c.contacts[k])
  }

  ghost predicate OnlyConversation(c: Core, d: Core, v: nat) {
    && d == c.(conversations := d.conversations, events := c.events + [ConversationChanged(v)])
    && d.conversations.Keys == c.conversations.Keys
    && (forall w :: w != v && w in c.conversations ==> d.conversations[w] == c.conversations[w])
  }

  ghost predicate OnlyMessage(c: Core, d: Core, m: nat) {
    && d == c.(messages := d.messages, events := c.events + [MessageChanged(m)])
    && d.messages.Keys == c.messages.Keys
    && (forall n :: n != m && n in c.messages ==> d.messages[n] == c.messages[n])
  }

  /** Identifiers count up from one. */
  predicate IsNext(id: nat, next: nat) {
    (next == 0 ==> id == 1) && (next >= 1 ==> id == next)
  }

  // ----- the order of delivery states --------------------------------------------------------------------------

  /** From the weakest to the strongest. */
  const DELIVERY_ORDER: seq<DeliveryState> := [Pending, SendFailed, Sent, Delivered, Read]

  ghost predicate Weaker(a: DeliveryState, b: DeliveryState) {
    exists i, j :: 0 <= i < j < 5 && DELIVERY_ORDER[i] == a && DELIVERY_ORDER[j] == b
  }

  lemma RanksFollowTheOrder(a: DeliveryState, b: DeliveryState)
    ensures DeliveryRank(a) < DeliveryRank(b) <==> Weaker(a, b)
    ensures a == b || Weaker(a, b) || Weaker(b, a)
  {
    forall i, j | 0 <= i < j < 5 ensures DeliveryRank(DELIVERY_ORDER[i]) < DeliveryRank(DELIVERY_ORDER[j]) {
    }
    var i := Place(a);
    var j := Place(b);
    assert i < j || j < i || i == j;
  }

  function Place(a: DeliveryState): (i: nat)
    ensures i < 5 && DELIVERY_ORDER[i] == a
  {
    match a
    case Pending => 0
    case SendFailed => 1
    case Sent => 2
    case Delivered => 3
    case Read => 4
  }

  // ----- receipts ----------------------------------------------------------------------------------------------

  /** The event is a receipt for an outgoing message by the other party of the direct conversation the message is in,
      received on the account of that conversation. */
  ghost predicate FromThePeer(c: Core, e: TransportEvent) {
    && e.DeliveryUpdated? && e.account in c.accounts
    && (exists local, domain :: BareAddress(e.sender, local, domain))
    && e.message in c.messages && c.messages[e.message].direction == Outgoing
    && c.messages[e.message].conversation in c.conversations
    && var v := c.conversations[c.messages[e.message].conversation];
       v.account == e.account && v.kind == Direct && v.address == e.sender
  }

  /** A receipt from the peer that says more than is known puts exactly its message in exactly that state; every other
      receipt changes nothing at all. */
  lemma ReceiptsActForThePeerOnly(c: Core, e: TransportEvent)
    requires e.DeliveryUpdated?
    ensures var d := c.ApplyTransportEvent(e).core;
            if FromThePeer(c, e) && Weaker(c.messages[e.message].delivery, e.delivery) then
              && OnlyMessage(c, d, e.message)
              && d.messages[e.message] == c.messages[e.message].(delivery := e.delivery)
            else d == c
    ensures c.ApplyTransportEvent(e).result == Ok(None)
  {
    hide ValidJid, DeliveryRank, Weaker, BareAddress;
    ValidJidIsBareAddress(e.sender);
    if e.message in c.messages {
      RanksFollowTheOrder(c.messages[e.message].delivery, e.delivery);
    }
  }

  // ----- contacts ----------------------------------------------------------------------------------------------

  /** The name shown for a contact: what the roster says, trimmed, or else the local part of the address. */
  ghost predicate ShownName(name: string, displayName: string, jid: string) {
    if Blank(displayName) then exists domain :: BareAddress(jid, name, domain) else Trimmed(displayName, name)
  }

  ghost predicate ShownStatus(shown: Option<string>, status: Option<string>) {
    if status.None? || Blank(status.value) then shown == None
    else shown.Some? && Trimmed(status.value, shown.value)
  }

  lemma NamesAreShown(displayName: string, jid: string)
    requires ValidJid(jid)
    ensures ShownName(ContactName(displayName, jid), displayName, jid)
  {
    hide ValidJid, BareAddress, Trim, Trimmed, Blank, Split;
    TrimIsTrimmed(displayName);
    if Blank(displayName) {
      ValidJidIsBareAddress(jid);
      var local, domain :| BareAddress(jid, local, domain);
      LocalPart(jid, local, domain);
    }
  }

  lemma LocalPart(jid: string, local: string, domain: string)
    requires BareAddress(jid, local, domain)
    ensures Split(jid, '@')[0] == local
  {
    SplitAtFirst(local, '@', domain);
    assert local + ['@'] + domain == jid;
  }

  lemma StatusIsShown(status: Option<string>)
    ensures ShownStatus(ContactStatus(status), status)
  {
    hide Trim, Trimmed, Blank;
    if status.Some? { TrimIsTrimmed(status.value); }
  }

  /** A roster push for a known account and a bare address sets the name and subscription of that one contact. Presence
      and status stay what they were if the contact was known, and are Offline and none if it was not. Any other push
      changes nothing. */
  lemma PushesKeepPresence(c: Core, account: nat, jid: string, displayName: string, subscription: RosterSubscription)
    ensures var e := RosterContactUpsert(account, jid, displayName, subscription);
            var d := c.ApplyTransportEvent(e).core;
            if account in c.accounts && (exists local, domain :: BareAddress(jid, local, domain)) then
              var k := (account, jid);
              && OnlyContact(c, d, account, jid) && k in d.contacts
              && (d.contacts[k].account, d.contacts[k].jid) == k
              && ShownName(d.contacts[k].displayName, displayName, jid) && d.contacts[k].subscription == subscription
              && (k in c.contacts ==>
                    d.contacts[k].presence == c.contacts[k].presence && d.contacts[k].status == c.contacts[k].status)
              && (k !in c.contacts ==> d.contacts[k].presence == PresenceOffline && d.contacts[k].status == None)
            else d == c
  {
    hide ValidJid, BareAddress, ShownName, ContactName;
    ValidJidIsBareAddress(jid);
    if ValidJid(jid) { NamesAreShown(displayName, jid); }
  }

  /** A presence event changes presence and status of a known contact, and nothing else of anything. */
  lemma PresenceChangesPresenceOnly(c: Core, account: nat, jid: string, presence: ContactPresence,
                                    status: Option<string>)
    ensures var d := c.ApplyTransportEvent(ContactPresenceUpdated(account, jid, presence, status)).core;
            var k := (account, jid);
            if account in c.accounts && k in c.contacts
               && (exists local, domain :: BareAddress(jid, local, domain)) then
              && OnlyContact(c, d, account, jid) && k in d.contacts
              && d.contacts[k] == c.contacts[k].(presence := presence, status := d.contacts[k].status)
              && ShownStatus(d.contacts[k].status, status)
            else d == c
  {
    hide ValidJid, BareAddress, ShownStatus, ContactStatus;
    ValidJidIsBareAddress(jid);
    StatusIsShown(status);
  }

  lemma RemovalRemovesTheContact(c: Core, account: nat, jid: string)
    ensures var d := c.ApplyTransportEvent(RosterContactRemoved(account, jid)).core;
            if account in c.accounts && (account, jid) in c.contacts
               && (exists local, domain :: BareAddress(jid, local, domain)) then
              OnlyContact(c, d, account, jid) && (account, jid) !in d.contacts
            else d == c
  {
    hide ValidJid, BareAddress;
    ValidJidIsBareAddress(jid);
  }

  /** What the answers mean: whether the push, removal, presence or receipt took effect. */
  lemma AnswersSayWhetherItTookEffect(c: Core, account: nat, jid: string, name: string,
                                      subscription: RosterSubscription, presence: ContactPresence,
                                      status: Option<string>)
    ensures var bare := exists local, domain :: BareAddress(jid, local, domain);
            && c.SyncRosterContact(account, jid, name, subscription).result == Ok(account in c.accounts && bare)
            && c.RemoveContact(account, jid).result ==
               Ok(account in c.accounts && bare && (account, jid) in c.contacts)
            && c.UpdateContactPresence(account, jid, presence, status).result ==
               Ok(account in c.accounts && bare && (account, jid) in c.contacts)
  {
    hide ValidJid, BareAddress, ContactName, ContactStatus;
    ValidJidIsBareAddress(jid);
  }

  lemma ReceiptAnswers(c: Core, account: nat, sender: string, message: nat, delivery: DeliveryState)
    ensures c.ApplyDeliveryUpdate(account, sender, message, delivery).result ==
            Ok(FromThePeer(c, DeliveryUpdated(account, sender, message, delivery))
               && Weaker(c.messages[message].delivery, delivery))
  {
    hide ValidJid, DeliveryRank, Weaker, BareAddress;
    ValidJidIsBareAddress(sender);
    if message in c.messages {
      RanksFollowTheOrder(c.messages[message].delivery, delivery);
    }
  }

  /** A contact the user stores is new in every field: a status and presence of their own, and no subscription. */
  lemma UpsertStoresTheContact(c: Core, account: nat, jid: string, displayName: string, presence: ContactPresence,
                               status: Option<string>)
    ensures var r := c.UpsertContact(account, jid, displayName, presence, status);
            var bare := exists local, domain :: BareAddress(jid, local, domain);
            && (account !in c.accounts ==> r == Ret(c, Err(UnknownAccount(account))))
            && (account in c.accounts && !bare ==> r == Ret(c, Err(InvalidJid)))
            && (account in c.accounts && bare ==>
                  var k := (account, jid);
                  && r.result == Ok(()) && OnlyContact(c, r.core, account, jid) && k in r.core.contacts
                  && var contact := r.core.contacts[k];
                     && (contact.account, contact.jid) == k && ShownName(contact.displayName, displayName, jid)
                     && contact.presence == presence && ShownStatus(contact.status, status)
                     && contact.subscription == NoSubscription)
    ensures Perform(c, OpUpsertContact(account, jid, displayName, presence, status)).core ==
            c.UpsertContact(account, jid, displayName, presence, status).core
  {
    hide ValidJid, BareAddress, ShownName, ContactName, ShownStatus, ContactStatus;
    ValidJidIsBareAddress(jid);
    StatusIsShown(status);
    if ValidJid(jid) { NamesAreShown(displayName, jid); }
  }

  // ----- accounts ----------------------------------------------------------------------------------------------

  lemma AddAccountStoresTheAccount(c: Core, jid: string, server: string, displayName: string)
    ensures var r := c.AddAccount(jid, server, displayName);
            var bare := exists local, domain :: BareAddress(jid, local, domain);
            && (!bare ==> r == Ret(c, Err(InvalidJid)))
            && (bare && (Blank(server) || HasWhitespace(server)) ==> r == Ret(c, Err(InvalidServer)))
            && (bare && !Blank(server) && !HasWhitespace(server) ==>
                  && r.result.Ok?
                  && var a := r.result.value;
                     && IsNext(a, c.nextAccount)
                     && OnlyAccount(c.(nextAccount := a + 1), r.core, a) && a in r.core.accounts
                     && r.core.accounts[a] ==
                        Account(a, jid, server, displayName, Offline, {}, None, None, true, []))
    ensures Perform(c, OpAddAccount(jid, server, displayName)).core == c.AddAccount(jid, server, displayName).core
  {
    hide ValidJid, BareAddress, Trim, Blank, HasWhitespace;
    ValidJidIsBareAddress(jid);
    TrimIsTrimmed(server);
  }

  /** Setting the state touches no other field but the failure, which it clears exactly for a session under way. */
  lemma SetConnectionStateSetsTheState(c: Core, account: nat, state: ConnectionState)
    ensures var r := c.SetConnectionState(account, state);
            && (account !in c.accounts ==> r == Ret(c, Err(UnknownAccount(account))))
            && (account in c.accounts ==>
                  && r.result == Ok(()) && OnlyAccount(c, r.core, account) && account in r.core.accounts
                  && var was, became := c.accounts[account], r.core.accounts[account];
                     && became == was.(state := state, error := became.error, disconnectKind := became.disconnectKind)
                     && (state == Connecting || state == Online ==>
                           became.error == None && became.disconnectKind == None)
                     && (state == Offline || state == Failed ==>
                           became.error == was.error && became.disconnectKind == was.disconnectKind))
  {
  }

  lemma SetCapabilitiesSetsThem(c: Core, account: nat, capabilities: set<Capability>)
    ensures var r := c.SetCapabilities(account, capabilities);
            && (account !in c.accounts ==> r == Ret(c, Err(UnknownAccount(account))))
            && (account in c.accounts ==>
                  && r.result == Ok(()) && OnlyAccount(c, r.core, account) && account in r.core.accounts
                  && r.core.accounts[account] == c.accounts[account].(capabilities := capabilities))
  {
  }

  lemma RenameSetsTheName(c: Core, account: nat, displayName: string)
    ensures var r := c.RenameAccount(account, displayName);
            && (Blank(displayName) ==> r == Ret(c, Err(EmptyDisplayName)))
            && (!Blank(displayName) && account !in c.accounts ==> r == Ret(c, Err(UnknownAccount(account))))
            && (!Blank(displayName) && account in c.accounts ==>
                  && r.result == Ok(()) && OnlyAccount(c, r.core, account) && account in r.core.accounts
                  && r.core.accounts[account] == c.accounts[account].(displayName := displayName))
  {
    hide Trim, Blank;
    TrimIsTrimmed(displayName);
  }

  lemma SetAccountProxiesSetsThem(c: Core, account: nat, proxies: seq<ProxyConfig>)
    ensures var r := c.SetAccountProxies(account, proxies);
            && (account !in c.accounts ==> r == Ret(c, Err(UnknownAccount(account))))
            && (account in c.accounts ==>
                  && r.result == Ok(()) && OnlyAccount(c, r.core, account) && account in r.core.accounts
                  && r.core.accounts[account] == c.accounts[account].(proxies := proxies))
  {
  }

  /** Connectivity and discovery events set the fields they speak of, for a known account only. */
  lemma ConnectivityEventsSetTheAccount(c: Core, e: TransportEvent)
    requires e.Connected? || e.Disconnected? || e.CapabilitiesDiscovered?
    ensures var d := c.ApplyTransportEvent(e).core;
            && (e.account !in c.accounts ==> d == c)
            && (e.account in c.accounts ==>
                  && OnlyAccount(c, d, e.account) && e.account in d.accounts
                  && var was, became := c.accounts[e.account], d.accounts[e.account];
                     match e
                     case Connected(_, capabilities) =>
                       became == was.(state := Online, capabilities := capabilities, error := None,
                                      disconnectKind := None)
                     case Disconnected(_, recoverable, detail, kind) =>
                       && became == was.(state := became.state, error := detail, disconnectKind := Some(kind))
                       && (recoverable ==> became.state == Offline) && (!recoverable ==> became.state == Failed)
                     case CapabilitiesDiscovered(_, capabilities) => became == was.(capabilities := capabilities))
  {
  }

  // ----- conversations and messages ------------------------------------------------------------------------------

  lemma MarkReadClearsTheBadge(c: Core, conversation: nat)
    ensures var r := c.MarkConversationRead(conversation);
            && (conversation !in c.conversations ==> r == Ret(c, Err(UnknownConversation(conversation))))
            && (conversation in c.conversations ==>
                  && r.result == Ok(()) && OnlyConversation(c, r.core, conversation)
                  && r.core.conversations[conversation] == c.conversations[conversation].(unread := 0))
  {
  }

  /** Opening checks the address, then the account, then the capability; it finds a conversation, changing nothing, or
      adds an empty one. */
  lemma OpenAddsAnEmptyConversation(c: Core, account: nat, kind: ConversationKind, address: string, title: string,
                                    now: nat)
    ensures var r := c.OpenConversation(account, kind, address, title, now);
            var bare := exists local, domain :: BareAddress(address, local, domain);
            && (!bare ==> r == Ret(c, Err(InvalidConversationAddress)))
            && (bare && account !in c.accounts ==> r == Ret(c, Err(UnknownAccount(account))))
            && (bare && account in c.accounts && kind == MultiUserChat
                && MucCapability !in c.accounts[account].capabilities ==>
                  r == Ret(c, Err(CapabilityUnavailable(MucCapability))))
            && (bare && account in c.accounts
                && (kind == Direct || MucCapability in c.accounts[account].capabilities) ==>
                  && r.result.Ok? && r.result.value in r.core.conversations
                  && var v := r.core.conversations[r.result.value];
                     && (v.account, v.kind, v.address) == (account, kind, address)
                     && (c.HasConversation(account, kind, address) ==> r.core == c)
                     && (!c.HasConversation(account, kind, address) ==>
                           && IsNext(r.result.value, c.nextConversation)
                           && v == Conversation(r.result.value, account, kind, address, title, 0, now)
                           && r.core == c.(nextConversation := r.result.value + 1,
                                           conversations := c.conversations[r.result.value := v],
                                           events := c.events + [ConversationChanged(r.result.value)])))
    ensures Perform(c, OpOpenConversation(account, kind, address, title, now)).core ==
            c.OpenConversation(account, kind, address, title, now).core
  {
    hide ValidJid, BareAddress, Core.HasConversation;
    ValidJidIsBareAddress(address);
  }

  /** An account that can do it owns the conversation. */
  predicate Capable(c: Core, conversation: nat, capability: Capability) {
    && conversation in c.conversations && c.conversations[conversation].account in c.accounts
    && capability in c.accounts[c.conversations[conversation].account].capabilities
  }

  /** Attaching needs a kind that is not text, the message, and an account that can upload; it sets the kind and the
      attachment of that message. */
  lemma AttachSetsTheAttachment(c: Core, message: nat, kind: MessageKind, attachment: Attachment)
    ensures var r := c.Attach(message, kind, attachment);
            && (kind == TextMessage ==> r == Ret(c, Err(CapabilityUnavailable(HttpFileUpload))))
            && (kind != TextMessage && message !in c.messages ==> r == Ret(c, Err(UnknownMessage(message))))
            && (kind != TextMessage && message in c.messages ==>
                  && (r.result.Ok? <==> Capable(c, c.messages[message].conversation, HttpFileUpload))
                  && (r.result.Err? ==> r.core == c)
                  && (r.result.Ok? ==>
                        && OnlyMessage(c, r.core, message)
                        && r.core.messages[message] ==
                           c.messages[message].(kind := kind, attachment := Some(attachment))))
  {
  }

  lemma SetDeliveryStateSetsTheState(c: Core, message: nat, delivery: DeliveryState)
    ensures var r := c.SetDeliveryState(message, delivery);
            && (message !in c.messages ==> r == Ret(c, Err(UnknownMessage(message))))
            && (message in c.messages ==>
                  && r.result == Ok(()) && OnlyMessage(c, r.core, message)
                  && r.core.messages[message] == c.messages[message].(delivery := delivery))
  {
  }

  /** Deleting what is not there is refused; what goes when it is there is said in `CoreCascade`. */
  lemma DeletingTheUnknownIsRefused(c: Core, id: nat)
    ensures id !in c.conversations ==> c.DeleteConversation(id) == Ret(c, Err(UnknownConversation(id)))
    ensures id in c.conversations ==> c.DeleteConversation(id).result == Ok(())
    ensures id !in c.accounts ==> c.DeleteAccount(id) == Ret(c, Err(UnknownAccount(id)))
    ensures id in c.accounts ==> c.DeleteAccount(id).result == Ok(())
  {
    hide Core.Without;
  }

  /** A reaction needs the message, an account that can react and something visible; it adds one reaction. */
  lemma AddReactionAddsTheReaction(c: Core, message: nat, actor: string, emoji: string)
    ensures var r := c.AddReaction(message, actor, emoji);
            && (message !in c.messages ==> r == Ret(c, Err(UnknownMessage(message))))
            && (message in c.messages ==>
                  var capable := Capable(c, c.messages[message].conversation, MessageReactions);
                  && (r.result.Ok? <==> capable && !Blank(emoji))
                  && (r.result.Err? ==> r.core == c)
                  && (capable && Blank(emoji) ==> r.result == Err(EmptyReaction))
                  && (r.result.Ok? ==>
                        var id := r.result.value;
                        && IsNext(id, c.nextReaction)
                        && r.core == c.(nextReaction := id + 1,
                                        reactions := c.reactions[id := Reaction(id, message, emoji, actor)],
                                        events := c.events + [MessageChanged(message)])))
    ensures Perform(c, OpAddReaction(message, actor, emoji)).core == c.AddReaction(message, actor, emoji).core
  {
    hide Trim, Blank;
    TrimIsTrimmed(emoji);
  }

  /** Which error a missing capability is. */
  lemma IncapableIsSaidWhy(c: Core, conversation: nat, capability: Capability)
    ensures var e := c.CapabilityError(conversation, capability);
            && (e == None <==> Capable(c, conversation, capability))
            && (conversation !in c.conversations ==> e == Some(UnknownConversation(conversation)))
            && (conversation in c.conversations && c.conversations[conversation].account !in c.accounts ==>
                  e == Some(UnknownAccount(c.conversations[conversation].account)))
            && (e.Some? && e.value.CapabilityUnavailable? ==> e.value.capability == capability)
  {
  }

  /** A message that is sent or received: whose it is, what it says, and how the conversation shows it. */
  ghost predicate Stored(c: Core, d: Core, id: nat, conversation: nat, sender: string, body: string,
                         direction: Direction, delivery: DeliveryState, inReplyTo: Option<nat>, now: nat)
  {
    && IsNext(id, c.nextMessage)
    && conversation in c.conversations && id in d.messages && conversation in d.conversations
    && var m, was, became := d.messages[id], c.conversations[conversation], d.conversations[conversation];
       && Trimmed(body, m.body)
       && m == Message(id, conversation, sender, m.body, direction, TextMessage, now, delivery, inReplyTo, None)
       && became == was.(lastActivity := now, unread := became.unread)
       && (became.unread == if direction == Incoming && was.unread < 0xFFFF_FFFF then was.unread + 1 else was.unread)
       && d == c.(nextMessage := id + 1, messages := c.messages[id := m],
                  conversations := c.conversations[conversation := became],
                  events := c.events + [ConversationChanged(conversation), MessageAdded(id)])
  }

  lemma SolidIsNotCutOff(body: string, j: nat, k: nat)
    requires k <= |body| && Blank(body[..k]) && j < |body| && !IsWhitespace(body[j])
    ensures k <= j
  {
    assert forall i :: 0 <= i < k ==> body[i] == body[..k][i];
  }

  lemma SolidIsNotCutOffBehind(body: string, j: nat, k: nat)
    requires k <= |body| && Blank(body[k..]) && j < |body| && !IsWhitespace(body[j])
    ensures j < k
  {
    assert forall i :: k <= i < |body| ==> body[i] == body[k..][i - k];
  }

  predicate CutAt(body: string, r: string, k: nat) {
    && r != [] && k + |r| <= |body| && r == body[k..k + |r|] && Blank(body[..k]) && Blank(body[k + |r|..])
    && !IsWhitespace(r[0]) && !IsWhitespace(r[|r| - 1])
  }

  lemma CutsStartNoLater(body: string, r: string, j: nat, s: string, k: nat)
    requires CutAt(body, r, j) && CutAt(body, s, k)
    ensures k <= j && j + |r| <= k + |s|
  {
    hide IsWhitespace, Blank;
    assert body[j] == r[0] && body[j + |r| - 1] == r[|r| - 1];
    SolidIsNotCutOff(body, j, k);
    SolidIsNotCutOffBehind(body, j + |r| - 1, k + |s|);
  }

  lemma CutsAreEqual(body: string, r: string, j: nat, s: string, k: nat)
    requires CutAt(body, r, j) && CutAt(body, s, k)
    ensures r == s
  {
    hide IsWhitespace, Blank;
    CutsStartNoLater(body, r, j, s, k);
    CutsStartNoLater(body, s, k, r, j);
  }

  lemma TrimmedIsCut(body: string, r: string) returns (k: nat)
    requires Trimmed(body, r) && !Blank(body)
    ensures CutAt(body, r, k)
  {
    hide IsWhitespace, Blank;
    k := TrimmedIsWithin(body, r);
    NotBlankTrimsToSomething(body, r);
  }

  lemma TrimmedIsWithin(body: string, r: string) returns (k: nat)
    requires Trimmed(body, r)
    ensures k + |r| <= |body| && r == body[k..k + |r|] && Blank(body[..k]) && Blank(body[k + |r|..])
  {
    hide IsWhitespace, Blank;
    k :| 0 <= k <= |body| - |r| && r == body[k..k + |r|] && Blank(body[..k]) && Blank(body[k + |r|..]);
  }

  /** What is left of a text without the whitespace around it is one text. */
  lemma TrimmedIsTrim(body: string, r: string)
    requires Trimmed(body, r) && !Blank(body)
    ensures r == Trim(body)
  {
    hide Trim, Trimmed, CutAt, Blank;
    TrimIsTrimmed(body);
    var j := TrimmedIsCut(body, r);
    var k := TrimmedIsCut(body, Trim(body));
    CutsAreEqual(body, r, j, Trim(body), k);
  }

  lemma NotBlankTrimsToSomething(body: string, r: string)
    requires Trimmed(body, r) && !Blank(body)
    ensures r != []
  {
    hide IsWhitespace;
    var k :| 0 <= k <= |body| - |r| && r == body[k..k + |r|] && Blank(body[..k]) && Blank(body[k + |r|..]);
    var i :| 0 <= i < |body| && !IsWhitespace(body[i]);
    SolidIsNotCutOff(body, i, k);
    SolidIsNotCutOffBehind(body, i, k + |r|);
  }

  /** Which bodies are refused, and why: blank ones, and those of more than 16384 characters without the whitespace
      around them. */
  lemma BodiesAreChecked(body: string)
    ensures CheckedBody(body) == Err(EmptyMessage) <==> Blank(body)
    ensures CheckedBody(body) == Err(MessageTooLong) <==>
            !Blank(body) && exists r :: Trimmed(body, r) && |r| > 16384
    ensures CheckedBody(body).Ok? ==> Trimmed(body, CheckedBody(body).value)
  {
    hide Trim, Trimmed, Blank;
    TrimIsTrimmed(body);
    if r :| !Blank(body) && Trimmed(body, r) && |r| > 16384 {
      TrimmedIsTrim(body, r);
    }
  }

  /** Sending checks the conversation, the reply target and its conversation, then the body; it stores one pending
      message. */
  lemma SendStoresTheMessage(c: Core, conversation: nat, sender: string, body: string, inReplyTo: Option<nat>, now: nat)
    ensures var r := c.SendText(conversation, sender, body, inReplyTo, now);
            var knownTarget := inReplyTo.None? || inReplyTo.value in c.messages;
            && (r.result.Err? ==> r.core == c)
            && (conversation !in c.conversations ==> r.result == Err(UnknownConversation(conversation)))
            && (conversation in c.conversations && !knownTarget ==> r.result == Err(UnknownMessage(inReplyTo.value)))
            && (conversation in c.conversations && knownTarget ==>
                  if inReplyTo.Some? && c.messages[inReplyTo.value].conversation != conversation
                  then r.result == Err(InvalidReplyTarget)
                  else if CheckedBody(body).Err? then r.result == Err(CheckedBody(body).error)
                  else r.result.Ok? && Stored(c, r.core, r.result.value, conversation, sender, body, Outgoing, Pending,
                                              inReplyTo, now))
    ensures Perform(c, OpSendText(conversation, sender, body, inReplyTo, now)).core ==
            c.SendText(conversation, sender, body, inReplyTo, now).core
  {
    hide Trimmed, CheckedBody;
    BodiesAreChecked(body);
  }

  lemma ReceiveStoresTheMessage(c: Core, conversation: nat, sender: string, body: string, now: nat)
    ensures var r := c.ReceiveText(conversation, sender, body, now);
            && (r.result.Err? ==> r.core == c)
            && (conversation !in c.conversations ==> r.result == Err(UnknownConversation(conversation)))
            && (conversation in c.conversations ==>
                  if CheckedBody(body).Err? then r.result == Err(CheckedBody(body).error)
                  else r.result.Ok? && Stored(c, r.core, r.result.value, conversation, sender, body, Incoming,
                                              Delivered, None, now))
    ensures Perform(c, OpReceiveText(conversation, sender, body, now)).core ==
            c.ReceiveText(conversation, sender, body, now).core
  {
    hide Trimmed, CheckedBody;
    BodiesAreChecked(body);
  }

  /** A text event is text from the network, at the address and by the sender it names. */
  lemma TextEventsAreReceived(c: Core, account: nat, kind: ConversationKind, address: string, sender: string,
                              body: string, now: nat)
    ensures c.ApplyTransportEvent(IncomingText(account, kind, address, sender, body, now)) ==
            c.ReceiveTransportText(account, kind, address, sender, body, now)
  {
    hide Core.ReceiveTransportText;
  }

  /** Text from the network is titled and addressed by who sent it, and otherwise received like any other. */
  lemma NetworkTextIsReceived(c: Core, account: nat, kind: ConversationKind, address: string, sender: string,
                              body: string, now: nat)
    ensures var r := c.ReceiveTransportText(account, kind, address, sender, body, now);
            var bare := exists local, domain :: BareAddress(address, local, domain);
            && (account !in c.accounts || !bare ==> r == Ret(c, Ok(None)))
            && (account in c.accounts && bare && CheckedBody(body).Err? ==> r == Ret(c, Err(CheckedBody(body).error)))
            && (account in c.accounts && bare && CheckedBody(body).Ok? ==>
                  && r.result.Ok? && r.result.value.Some?
                  && exists t: Core, v: nat, local, domain ::
                       && BareAddress(address, local, domain)
                       && (if c.HasConversation(account, kind, address)
                           then t == c && c.IsConversation(v, account, kind, address)
                           else IsNext(v, c.nextConversation) &&
                                t == c.(nextConversation := v + 1,
                                        conversations :=
                                          c.conversations[v := Conversation(v, account, kind, address, local, 0, now)],
                                        events := c.events + [ConversationChanged(v)]))
                       && Stored(t, r.core, r.result.value.value, v, sender, body, Incoming, Delivered, None, now))
  {
    hide Trimmed, CheckedBody, ValidJid, BareAddress, Core.HasConversation, Core.ReceiveText, Split;
    ValidJidIsBareAddress(address);
    if account in c.accounts && ValidJid(address) && CheckedBody(body).Ok? {
      var local, domain :| BareAddress(address, local, domain);
      LocalPart(address, local, domain);
      var t := c.FindOrCreate(account, kind, address, local, now);
      TargetIsFound(c, account, kind, address, local, now);
      ReceiveStoresTheMessage(t.core, t.result.value, sender, body, now);
    }
  }
}
