/** The records, events and validators of the domain core. Identifiers are unbounded `nat`s. */
module Domain {
  import opened Wrappers
  import opened Text

  datatype ConnectionState = Offline | Connecting | Online | Failed

  datatype DisconnectKind =
    AuthenticationFailed | TlsVerificationFailed | ServerRefused | NetworkLost | Cancelled | Unknown

  datatype ContactPresence = PresenceOnline | Away | DoNotDisturb | PresenceOffline

  datatype RosterSubscription = NoSubscription | Inbound | Outbound | Mutual | PendingOutbound

  datatype ConversationKind = Direct | MultiUserChat

  datatype Direction = Incoming | Outgoing

  datatype DeliveryState = Pending | Sent | Delivered | Read | SendFailed

  datatype MessageKind = TextMessage | AttachmentMessage | VoiceMessage

  datatype Capability =
    | MucCapability | MessageArchive | StreamManagement | HttpFileUpload | Omemo | PushNotifications | Receipts
    | ChatMarkers | ChatStates | MessageReactions | MessageCorrections | MessageReplies | SharedPins

  datatype ProxyKind = Socks5 | HttpConnect

  datatype ProxyConfig = ProxyConfig(host: string, port: nat, kind: ProxyKind)

  datatype Account = Account(
    id: nat, jid: string, server: string, displayName: string, state: ConnectionState,
    capabilities: set<Capability>, error: Option<string>, disconnectKind: Option<DisconnectKind>,
    autoReconnect: bool, proxies: seq<ProxyConfig>)

  datatype Contact = Contact(
    account: nat, jid: string, displayName: string, presence: ContactPresence, status: Option<string>,
    subscription: RosterSubscription)

  datatype Conversation = Conversation(
    id: nat, account: nat, kind: ConversationKind, address: string, title: string, unread: nat, lastActivity: nat)

  datatype Attachment = Attachment(
    id: string, filename: string, mimeType: string, byteCount: nat, remoteUrl: Option<string>)

  datatype Message = Message(
    id: nat, conversation: nat, sender: string, body: string, direction: Direction, kind: MessageKind, sentAt: nat,
    delivery: DeliveryState, inReplyTo: Option<nat>, attachment: Option<Attachment>)

  datatype Reaction = Reaction(id: nat, message: nat, emoji: string, actor: string)

  datatype CoreEvent =
    | AccountChanged(account: nat)
    | RosterChanged(account: nat)
    | ConversationChanged(conversation: nat)
    | MessageAdded(message: nat)
    | MessageChanged(message: nat)

  datatype CoreError =
    | InvalidJid | InvalidServer | InvalidConversationAddress | EmptyMessage | MessageTooLong | EmptyReaction
    | EmptyDisplayName | InvalidReplyTarget | UnknownAccount(account: nat) | UnknownConversation(conversation: nat)
    | UnknownMessage(message: nat) | CapabilityUnavailable(capability: Capability)

  datatype TransportEvent =
    | Connected(account: nat, capabilities: set<Capability>)
    | Disconnected(account: nat, recoverable: bool, detail: Option<string>, kind: DisconnectKind)
    | CapabilitiesDiscovered(account: nat, capabilities: set<Capability>)
    | RosterContactUpsert(account: nat, jid: string, displayName: string, subscription: RosterSubscription)
    | RosterContactRemoved(account: nat, jid: string)
    | ContactPresenceUpdated(account: nat, jid: string, presence: ContactPresence, status: Option<string>)
    | IncomingText(account: nat, conversationKind: ConversationKind, address: string, sender: string, body: string,
                   receivedAt: nat)
    | DeliveryUpdated(account: nat, sender: string, message: nat, delivery: DeliveryState)

  datatype OutgoingMessage = OutgoingMessage(
    account: nat, conversation: nat, message: nat, kind: ConversationKind, recipient: string, body: string,
    inReplyTo: Option<nat>)

  const MAX_MESSAGE_CHARS: nat := 16384
  const MAX_UNREAD: nat := 0xFFFF_FFFF

  /** Never regress: the order in which delivery states may follow each other. */
  function DeliveryRank(d: DeliveryState): nat {
    match d
    case Pending => 0
    case SendFailed => 1
    case Sent => 2
    case Delivered => 3
    case Read => 4
  }

  predicate Queued(m: Message) {
    m.direction == Outgoing && (m.delivery == Pending || m.delivery == SendFailed)
  }

  predicate ValidJid(jid: string) {
    var pieces := Split(jid, '@');
    var local := pieces[0];
    var domain := if |pieces| > 1 then pieces[1] else "";
    && Trim(local) != "" && Trim(domain) != ""
    && !HasWhitespace(local) && !HasWhitespace(domain)
    && '/' !in domain && |pieces| <= 2
  }

  predicate ValidServer(server: string) {
    Trim(server) != "" && !HasWhitespace(server)
  }

  function ContactName(displayName: string, jid: string): string {
    var name := Trim(displayName);
    if name == "" then Split(jid, '@')[0] else name
  }

  function ContactStatus(status: Option<string>): Option<string> {
    if status.Some? && Trim(status.value) != "" then Some(Trim(status.value)) else None
  }

  function CheckedBody(body: string): Result<string, CoreError> {
    var trimmed := Trim(body);
    if trimmed == "" then Err(EmptyMessage)
    else if |trimmed| > MAX_MESSAGE_CHARS then Err(MessageTooLong)
    else Ok(trimmed)
  }

  /** A bare address: one `@` between two non-empty whitespace-free parts, and no resource in the domain. */
  ghost predicate BareAddress(jid: string, local: string, domain: string) {
    && jid == local + "@" + domain
    && local != "" && domain != "" && '@' !in local && '@' !in domain && '/' !in domain
    && !HasWhitespace(local) && !HasWhitespace(domain)
  }

  lemma TrimOfSolid(s: string)
    requires !HasWhitespace(s)
    ensures Trim(s) == "" <==> s == ""
  {
    TrimIsTrimmed(s);
    if s != "" {
      assert !IsWhitespace(s[0]);
    }
  }

  /** The validator accepts exactly the bare addresses, each of which has one decomposition. */
  lemma ValidJidIsBareAddress(jid: string)
    ensures ValidJid(jid) <==> exists local, domain :: BareAddress(jid, local, domain)
  {
    var pieces := Split(jid, '@');
    SplitPiecesAreFree(jid, '@');
    JoinOfSplit(jid, '@');
    if ValidJid(jid) {
      if |pieces| == 2 {
        assert pieces[1..] == [pieces[1]];
        assert BareAddress(jid, pieces[0], pieces[1]);
      } else {
        TrimIsTrimmed("");
      }
    }
    if local, domain :| BareAddress(jid, local, domain) {
      SplitAtFirst(local, '@', domain);
      SplitPiecesAreFree(domain, '@');
      assert local + ['@'] + domain == jid && pieces == [local, domain];
      TrimOfSolid(local);
      TrimOfSolid(domain);
    }
  }

  /** A body that passed validation passes again unchanged, so validating before storing is enough. */
  lemma CheckedBodyIsStable(body: string)
    ensures CheckedBody(body).Ok? ==> CheckedBody(CheckedBody(body).value) == CheckedBody(body)
    ensures CheckedBody(body).Ok? ==>
              Trimmed(body, CheckedBody(body).value) && 1 <= |CheckedBody(body).value| <= MAX_MESSAGE_CHARS
    ensures CheckedBody(body) == Err(EmptyMessage) <==> Blank(body)
  {
    TrimIsTrimmed(body);
    TrimIsIdempotent(body);
  }
}
