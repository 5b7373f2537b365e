/** The value of a domain core and, for every mutator, the state and answer it must produce.
    `MindChatCore` is verified against these functions; the other modules prove what they promise. */
module CoreState {
  import opened Wrappers
  import opened Text
  import opened Domain

  datatype Ret<+T> = Ret(core: Core, result: Result<T, CoreError>)

  /** Allocators start at zero and hand out identifiers from one. */
  function FreshId(next: nat): nat {
    if next == 0 then 1 else next
  }

  datatype Core = Core(
    nextAccount: nat, nextConversation: nat, nextMessage: nat, nextReaction: nat,
    accounts: map<nat, Account>, contacts: map<(nat, string), Contact>, conversations: map<nat, Conversation>,
    messages: map<nat, Message>, reactions: map<nat, Reaction>, events: seq<CoreEvent>)
  {
    function Emit(e: CoreEvent): Core {
      this.(events := events + [e])
    }

    function PutAccount(account: nat, a: Account): Core {
      this.(accounts := accounts[account := a]).Emit(AccountChanged(account))
    }

    function PutContact(account: nat, jid: string, c: Contact): Core {
      this.(contacts := contacts[(account, jid) := c]).Emit(RosterChanged(account))
    }

    function PutMessage(message: nat, m: Message): Core {
      this.(messages := messages[message := m]).Emit(MessageChanged(message))
    }

    // ----- accounts -------------------------------------------------------------------

    function AddAccount(jid: string, server: string, displayName: string): Ret<nat> {
      if !ValidJid(jid) then Ret(this, Err(InvalidJid))
      else if !ValidServer(server) then Ret(this, Err(InvalidServer))
      else
        var id := FreshId(nextAccount);
        Ret(this.(nextAccount := id + 1)
                .PutAccount(id, Account(id, jid, server, displayName, Offline, {}, None, None, true, [])),
            Ok(id))
    }

    function SetConnectionState(account: nat, state: ConnectionState): Ret<()> {
      if account !in accounts then Ret(this, Err(UnknownAccount(account)))
      else
        var a := accounts[account].(state := state);
        var cleared := if state == Connecting || state == Online then a.(error := None, disconnectKind := None) else a;
        Ret(PutAccount(account, cleared), Ok(()))
    }

    function SetCapabilities(account: nat, capabilities: set<Capability>): Ret<()> {
      if account !in accounts then Ret(this, Err(UnknownAccount(account)))
      else Ret(PutAccount(account, accounts[account].(capabilities := capabilities)), Ok(()))
    }

    function RenameAccount(account: nat, displayName: string): Ret<()> {
      if Trim(displayName) == "" then Ret(this, Err(EmptyDisplayName))
      else if account !in accounts then Ret(this, Err(UnknownAccount(account)))
      else Ret(PutAccount(account, accounts[account].(displayName := displayName)), Ok(()))
    }

    function SetAccountProxies(account: nat, proxies: seq<ProxyConfig>): Ret<()> {
      if account !in accounts then Ret(this, Err(UnknownAccount(account)))
      else Ret(PutAccount(account, accounts[account].(proxies := proxies)), Ok(()))
    }

    // ----- roster ---------------------------------------------------------------------

    function UpsertContact(account: nat, jid: string, displayName: string, presence: ContactPresence,
                           status: Option<string>): Ret<()> {
      if account !in accounts then Ret(this, Err(UnknownAccount(account)))
      else if !ValidJid(jid) then Ret(this, Err(InvalidJid))
      else
        var contact := Contact(account, jid, ContactName(displayName, jid), presence, ContactStatus(status),
                               NoSubscription);
        Ret(PutContact(account, jid, contact), Ok(()))
    }

    function SyncRosterContact(account: nat, jid: string, displayName: string,
                               subscription: RosterSubscription): Ret<bool> {
      if account !in accounts || !ValidJid(jid) then Ret(this, Ok(false))
      else
        var known := (account, jid) in contacts;
        var presence := if known then contacts[(account, jid)].presence else PresenceOffline;
        var status := if known then contacts[(account, jid)].status else None;
        var contact := Contact(account, jid, ContactName(displayName, jid), presence, status, subscription);
        Ret(PutContact(account, jid, contact), Ok(true))
    }

    function RemoveContact(account: nat, jid: string): Ret<bool> {
      if account !in accounts || !ValidJid(jid) || (account, jid) !in contacts then Ret(this, Ok(false))
      else Ret(this.(contacts := contacts - {(account, jid)}).Emit(RosterChanged(account)), Ok(true))
    }

    function UpdateContactPresence(account: nat, jid: string, presence: ContactPresence,
                                   status: Option<string>): Ret<bool> {
      if account !in accounts || !ValidJid(jid) || (account, jid) !in contacts then Ret(this, Ok(false))
      else
        var contact := contacts[(account, jid)];
        Ret(PutContact(account, jid, contact.(presence := presence, status := ContactStatus(status))), Ok(true))
    }

    // ----- conversations --------------------------------------------------------------

    predicate IsConversation(id: nat, account: nat, kind: ConversationKind, address: string) {
      && id in conversations
      && conversations[id].account == account && conversations[id].kind == kind && conversations[id].address == address
    }

    ghost predicate HasConversation(account: nat, kind: ConversationKind, address: string) {
      exists id :: IsConversation(id, account, kind, address)
    }

    ghost function ConversationFor(account: nat, kind: ConversationKind, address: string): (id: nat)
      requires HasConversation(account, kind, address)
      ensures IsConversation(id, account, kind, address)
    {
      var id :| IsConversation(id, account, kind, address);
      id
    }

    function CreateConversation(account: nat, kind: ConversationKind, address: string, title: string,
                                now: nat): Ret<nat> {
      var id := FreshId(nextConversation);
      var conversation := Conversation(id, account, kind, address, title, 0, now);
      Ret(this.(nextConversation := id + 1, conversations := conversations[id := conversation])
              .Emit(ConversationChanged(id)),
          Ok(id))
    }

    ghost function FindOrCreate(account: nat, kind: ConversationKind, address: string, title: string,
                                now: nat): Ret<nat> {
      if HasConversation(account, kind, address) then Ret(this, Ok(ConversationFor(account, kind, address)))
      else CreateConversation(account, kind, address, title, now)
    }

    ghost function OpenConversation(account: nat, kind: ConversationKind, address: string, title: string,
                                    now: nat): Ret<nat> {
      if !ValidJid(address) then Ret(this, Err(InvalidConversationAddress))
      else if account !in accounts then Ret(this, Err(UnknownAccount(account)))
      else if kind == MultiUserChat && MucCapability !in accounts[account].capabilities then
        Ret(this, Err(CapabilityUnavailable(MucCapability)))
      else FindOrCreate(account, kind, address, title, now)
    }

    function Touch(conversation: nat, now: nat, incrementUnread: bool): Core
      requires conversation in conversations
    {
      var was := conversations[conversation];
      var unread := if incrementUnread && was.unread < MAX_UNREAD then was.unread + 1 else was.unread;
      this.(conversations := conversations[conversation := was.(lastActivity := now, unread := unread)])
          .Emit(ConversationChanged(conversation))
    }

    function MarkConversationRead(conversation: nat): Ret<()> {
      if conversation !in conversations then Ret(this, Err(UnknownConversation(conversation)))
      else
        Ret(this.(conversations := conversations[conversation := conversations[conversation].(unread := 0)])
                .Emit(ConversationChanged(conversation)),
            Ok(()))
    }

    // ----- messages -------------------------------------------------------------------

    /** Stores a new message in its conversation and announces both. */
    function AddMessage(m: Message, now: nat): Ret<nat>
      requires m.conversation in conversations
    {
      Ret(this.(nextMessage := m.id + 1, messages := messages[m.id := m])
              .Touch(m.conversation, now, m.direction == Incoming)
              .Emit(MessageAdded(m.id)),
          Ok(m.id))
    }

    function SendText(conversation: nat, sender: string, body: string, inReplyTo: Option<nat>, now: nat): Ret<nat> {
      if conversation !in conversations then Ret(this, Err(UnknownConversation(conversation)))
      else if inReplyTo.Some? && inReplyTo.value !in messages then Ret(this, Err(UnknownMessage(inReplyTo.value)))
      else if inReplyTo.Some? && messages[inReplyTo.value].conversation != conversation then
        Ret(this, Err(InvalidReplyTarget))
      else match CheckedBody(body)
        case Err(e) => Ret(this, Err(e))
        case Ok(text) =>
          AddMessage(Message(FreshId(nextMessage), conversation, sender, text, Outgoing, TextMessage, now, Pending,
                             inReplyTo, None), now)
    }

    function ReceiveText(conversation: nat, sender: string, body: string, now: nat): Ret<nat> {
      if conversation !in conversations then Ret(this, Err(UnknownConversation(conversation)))
      else match CheckedBody(body)
        case Err(e) => Ret(this, Err(e))
        case Ok(text) =>
          AddMessage(Message(FreshId(nextMessage), conversation, sender, text, Incoming, TextMessage, now, Delivered,
                             None, None), now)
    }

    ghost function ReceiveTransportText(account: nat, kind: ConversationKind, address: string, sender: string,
                                        body: string, now: nat): Ret<Option<nat>> {
      if account !in accounts || !ValidJid(address) then Ret(this, Ok(None))
      else if CheckedBody(body).Err? then Ret(this, Err(CheckedBody(body).error))
      else
        var target := FindOrCreate(account, kind, address, Split(address, '@')[0], now);
        var received := target.core.ReceiveText(target.result.value, sender, body, now);
        match received.result
        case Err(e) => Ret(received.core, Err(e))
        case Ok(id) => Ret(received.core, Ok(Some(id)))
    }

    function CapabilityError(conversation: nat, capability: Capability): Option<CoreError> {
      if conversation !in conversations then Some(UnknownConversation(conversation))
      else if conversations[conversation].account !in accounts then
        Some(UnknownAccount(conversations[conversation].account))
      else if capability !in accounts[conversations[conversation].account].capabilities then
        Some(CapabilityUnavailable(capability))
      else None
    }

    function Attach(message: nat, kind: MessageKind, attachment: Attachment): Ret<()> {
      if kind == TextMessage then Ret(this, Err(CapabilityUnavailable(HttpFileUpload)))
      else if message !in messages then Ret(this, Err(UnknownMessage(message)))
      else
        var error := CapabilityError(messages[message].conversation, HttpFileUpload);
        if error.Some? then Ret(this, Err(error.value))
        else Ret(PutMessage(message, messages[message].(kind := kind, attachment := Some(attachment))), Ok(()))
    }

    function AddReaction(message: nat, actor: string, emoji: string): Ret<nat> {
      if message !in messages then Ret(this, Err(UnknownMessage(message)))
      else
        var error := CapabilityError(messages[message].conversation, MessageReactions);
        if error.Some? then Ret(this, Err(error.value))
        else if Trim(emoji) == "" then Ret(this, Err(EmptyReaction))
        else
          var id := FreshId(nextReaction);
          Ret(this.(nextReaction := id + 1, reactions := reactions[id := Reaction(id, message, emoji, actor)])
                  .Emit(MessageChanged(message)),
              Ok(id))
    }

    function SetDeliveryState(message: nat, delivery: DeliveryState): Ret<()> {
      if message !in messages then Ret(this, Err(UnknownMessage(message)))
      else Ret(PutMessage(message, messages[message].(delivery := delivery)), Ok(()))
    }

    /** Whether a receipt from `sender` on `account` speaks for `message`: only the peer of the direct
        conversation the message was sent in may acknowledge it. */
    predicate ReceiptApplies(account: nat, sender: string, message: nat) {
      && account in accounts && ValidJid(sender)
      && message in messages && messages[message].direction == Outgoing
      && messages[message].conversation in conversations
      && IsConversation(messages[message].conversation, account, Direct, sender)
    }

    function ApplyDeliveryUpdate(account: nat, sender: string, message: nat, delivery: DeliveryState): Ret<bool> {
      if !ReceiptApplies(account, sender, message)
        || DeliveryRank(delivery) <= DeliveryRank(messages[message].delivery) then Ret(this, Ok(false))
      else Ret(SetDeliveryState(message, delivery).core, Ok(true))
    }

    // ----- removal --------------------------------------------------------------------

    predicate InConversations(message: nat, doomed: set<nat>) {
      message in messages && messages[message].conversation in doomed
    }

    /** This core without some conversations, their messages and the reactions to those. */
    function Without(doomed: set<nat>): Core {
      this.(conversations := conversations - doomed,
            messages := map m | m in messages && !InConversations(m, doomed) :: messages[m],
            reactions := map r | r in reactions && !InConversations(reactions[r].message, doomed) :: reactions[r])
    }

    function ConversationsOf(account: nat): set<nat> {
      set id | id in conversations && conversations[id].account == account
    }

    function DeleteConversation(conversation: nat): Ret<()> {
      if conversation !in conversations then Ret(this, Err(UnknownConversation(conversation)))
      else Ret(Without({conversation}).Emit(ConversationChanged(conversation)), Ok(()))
    }

    function DeleteAccount(account: nat): Ret<()> {
      if account !in accounts then Ret(this, Err(UnknownAccount(account)))
      else
        var rest := Without(ConversationsOf(account));
        Ret(rest.(contacts := map k | k in contacts && k.0 != account :: contacts[k], accounts := accounts - {account})
                .Emit(AccountChanged(account)),
            Ok(()))
    }

    // ----- transport events -----------------------------------------------------------

    function ApplyConnected(account: nat, capabilities: set<Capability>): Ret<Option<nat>> {
      if account !in accounts then Ret(this, Ok(None))
      else
        var a := accounts[account].(state := Online, capabilities := capabilities, error := None,
                                    disconnectKind := None);
        Ret(PutAccount(account, a), Ok(None))
    }

    function ApplyDisconnected(account: nat, recoverable: bool, detail: Option<string>,
                               kind: DisconnectKind): Ret<Option<nat>> {
      if account !in accounts then Ret(this, Ok(None))
      else
        var a := accounts[account].(state := if recoverable then Offline else Failed, error := detail,
                                    disconnectKind := Some(kind));
        Ret(PutAccount(account, a), Ok(None))
    }

    ghost function ApplyTransportEvent(e: TransportEvent): Ret<Option<nat>> {
      match e
      case Connected(account, capabilities) => ApplyConnected(account, capabilities)
      case Disconnected(account, recoverable, detail, kind) => ApplyDisconnected(account, recoverable, detail, kind)
      case CapabilitiesDiscovered(account, capabilities) =>
        Ret(if account in accounts then SetCapabilities(account, capabilities).core else this, Ok(None))
      case RosterContactUpsert(account, jid, displayName, subscription) =>
        Ret(SyncRosterContact(account, jid, displayName, subscription).core, Ok(None))
      case RosterContactRemoved(account, jid) => Ret(RemoveContact(account, jid).core, Ok(None))
      case ContactPresenceUpdated(account, jid, presence, status) =>
        Ret(UpdateContactPresence(account, jid, presence, status).core, Ok(None))
      case IncomingText(account, kind, address, sender, body, receivedAt) =>
        ReceiveTransportText(account, kind, address, sender, body, receivedAt)
      case DeliveryUpdated(account, sender, message, delivery) =>
        Ret(ApplyDeliveryUpdate(account, sender, message, delivery).core, Ok(None))
    }

    // ----- outbox ---------------------------------------------------------------------

    /** The outgoing messages of `account` that still wait to be sent. */
    predicate Waiting(account: nat, message: nat) {
      && message in messages && Queued(messages[message])
      && messages[message].conversation in conversations
      && conversations[messages[message].conversation].account == account
    }

    function Envelope(message: nat): OutgoingMessage
      requires message in messages && messages[message].conversation in conversations
    {
      var m := messages[message];
      var c := conversations[m.conversation];
      OutgoingMessage(c.account, m.conversation, message, c.kind, c.address, m.body, m.inReplyTo)
    }
  }

  const EmptyCore := Core(0, 0, 0, 0, map[], map[], map[], map[], map[], [])

  /** Every mutator of the core, as data, so that runs are sequences. */
  datatype Op =
    | OpAddAccount(jid: string, server: string, displayName: string)
    | OpSetConnectionState(account: nat, state: ConnectionState)
    | OpSetCapabilities(account: nat, capabilities: set<Capability>)
    | OpRenameAccount(account: nat, displayName: string)
    | OpSetAccountProxies(account: nat, proxies: seq<ProxyConfig>)
    | OpUpsertContact(account: nat, jid: string, displayName: string, presence: ContactPresence, status: Option<string>)
    | OpOpenConversation(account: nat, kind: ConversationKind, address: string, title: string, now: nat)
    | OpMarkConversationRead(conversation: nat)
    | OpSendText(conversation: nat, sender: string, body: string, inReplyTo: Option<nat>, now: nat)
    | OpReceiveText(conversation: nat, sender: string, body: string, now: nat)
    | OpAttach(message: nat, messageKind: MessageKind, attachment: Attachment)
    | OpAddReaction(message: nat, actor: string, emoji: string)
    | OpSetDeliveryState(message: nat, delivery: DeliveryState)
    | OpDeleteConversation(conversation: nat)
    | OpDeleteAccount(account: nat)
    | OpTransportEvent(event: TransportEvent)

  datatype Outcome = Outcome(core: Core, error: Option<CoreError>)

  function OutcomeOf<T>(r: Ret<T>): Outcome {
    Outcome(r.core, if r.result.Err? then Some(r.result.error) else None)
  }

  ghost function Perform(c: Core, op: Op): Outcome {
    match op
    case OpAddAccount(jid, server, displayName) => OutcomeOf(c.AddAccount(jid, server, displayName))
    case OpSetConnectionState(account, state) => OutcomeOf(c.SetConnectionState(account, state))
    case OpSetCapabilities(account, capabilities) => OutcomeOf(c.SetCapabilities(account, capabilities))
    case OpRenameAccount(account, displayName) => OutcomeOf(c.RenameAccount(account, displayName))
    case OpSetAccountProxies(account, proxies) => OutcomeOf(c.SetAccountProxies(account, proxies))
    case OpUpsertContact(account, jid, displayName, presence, status) =>
      OutcomeOf(c.UpsertContact(account, jid, displayName, presence, status))
    case OpOpenConversation(account, kind, address, title, now) =>
      OutcomeOf(c.OpenConversation(account, kind, address, title, now))
    case OpMarkConversationRead(conversation) => OutcomeOf(c.MarkConversationRead(conversation))
    case OpSendText(conversation, sender, body, inReplyTo, now) =>
      OutcomeOf(c.SendText(conversation, sender, body, inReplyTo, now))
    case OpReceiveText(conversation, sender, body, now) => OutcomeOf(c.ReceiveText(conversation, sender, body, now))
    case OpAttach(message, kind, attachment) => OutcomeOf(c.Attach(message, kind, attachment))
    case OpAddReaction(message, actor, emoji) => OutcomeOf(c.AddReaction(message, actor, emoji))
    case OpSetDeliveryState(message, delivery) => OutcomeOf(c.SetDeliveryState(message, delivery))
    case OpDeleteConversation(conversation) => OutcomeOf(c.DeleteConversation(conversation))
    case OpDeleteAccount(account) => OutcomeOf(c.DeleteAccount(account))
    case OpTransportEvent(event) => OutcomeOf(c.ApplyTransportEvent(event))
  }
}
