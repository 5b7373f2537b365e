/** The projection of a core snapshot into UI state, and the cache that skips rebuilding it. */
module UiCache {
  import opened Wrappers
  import opened Text
  import opened Domain
  import opened CoreState
  import opened CoreSnapshot
  import opened ProxyCodec

  const STALL_THRESHOLD_MS: int := 35000

  datatype Presence = UiOnline | UiAway | UiDoNotDisturb | UiOffline

  datatype AccountUi = AccountUi(
    id: nat, jid: string, displayName: string, presence: Presence, connectionState: ConnectionState,
    supportsGroupChats: bool, connectionError: Option<string>, connectionStalled: bool,
    disconnectKind: Option<DisconnectKind>)

  datatype ContactUi = ContactUi(
    account: nat, jid: string, displayName: string, presence: Presence, status: Option<string>)

  datatype ConversationUi = ConversationUi(
    id: nat, account: nat, title: string, address: string, preview: string, timestamp: string, unreadCount: nat,
    isGroup: bool, lastActivity: nat)

  datatype MessageUi = MessageUi(
    id: nat, sender: string, body: string, timestamp: string, mine: bool, delivery: Option<DeliveryState>,
    reactions: seq<string>)

  datatype AccountProfile = AccountProfile(
    avatarUri: Option<string>, statusMessage: Option<string>, accentKey: Option<string>, bubbleStyle: Option<string>,
    chatBackground: Option<string>)

  /** Everything the UI shows that does not come from the core. */
  datatype Inputs = Inputs(
    profiles: map<nat, AccountProfile>, settings: map<string, string>, appearance: string,
    proxyLibrary: seq<ProxyLibraryEntry>, proxyAssignments: map<nat, string>, quarantined: bool, noticeDismissed: bool)

  datatype UiState = UiState(
    accounts: seq<AccountUi>, contacts: seq<ContactUi>, activeAccountId: nat, conversations: seq<ConversationUi>,
    messagesByConversation: map<nat, seq<MessageUi>>, inputs: Inputs)

  datatype Mapping = Mapping(state: UiState, connectingSince: map<nat, int>, activeAccountId: nat)

  // ----- grouping -----------------------------------------------------------------------------------

  /** The elements filed under `k`, in order. */
  function Matching<T>(xs: seq<T>, key: T -> nat, k: nat): seq<T> {
    if xs == [] then []
    else
      var last := xs[|xs| - 1];
      Matching(xs[..|xs| - 1], key, k) + if key(last) == k then [last] else []
  }

  ghost predicate Groups<T>(m: map<nat, seq<T>>, xs: seq<T>, key: T -> nat) {
    forall k :: (k in m <==> Matching(xs, key, k) != []) && (k in m ==> m[k] == Matching(xs, key, k))
  }

  /** One pass that files every element; a lookup in the index is a filter of the list. */
  method GroupBy<T>(xs: seq<T>, key: T -> nat) returns (m: map<nat, seq<T>>)
    ensures Groups(m, xs, key)
  {
    m := map[];
    for i := 0 to |xs|
      invariant Groups(m, xs[..i], key)
    {
      assert xs[..i + 1][..i] == xs[..i];
      var k := key(xs[i]);
      m := m[k := (if k in m then m[k] else []) + [xs[i]]];
    }
    assert xs[..|xs|] == xs;
  }

  function Emojis(reactions: seq<Reaction>): seq<string> {
    seq(|reactions|, i requires 0 <= i < |reactions| => reactions[i].emoji)
  }

  function FirstOccurrences(xs: seq<string>): seq<string> {
    if xs == [] then []
    else
      var front := FirstOccurrences(xs[..|xs| - 1]);
      if xs[|xs| - 1] in xs[..|xs| - 1] then front else front + [xs[|xs| - 1]]
  }

  function Count(xs: seq<string>, x: string): nat {
    if xs == [] then 0 else Count(xs[..|xs| - 1], x) + if xs[|xs| - 1] == x then 1 else 0
  }

  /** Each emoji once, in order of first use, with its count. */
  function Labels(emojis: seq<string>): seq<string> {
    var order := FirstOccurrences(emojis);
    seq(|order|, i requires 0 <= i < |order| => order[i] + " " + Decimal(Count(emojis, order[i])))
  }

  lemma {:induction false} CountIsPresence(xs: seq<string>, x: string)
    ensures Count(xs, x) > 0 <==> x in xs
  {
    if xs != [] {
      CountIsPresence(xs[..|xs| - 1], x);
      assert xs == xs[..|xs| - 1] + [xs[|xs| - 1]];
    }
  }

  /** A label for every emoji used, and never two for the same one. */
  lemma {:induction false} FirstOccurrencesAreTheElements(xs: seq<string>)
    ensures forall x :: x in FirstOccurrences(xs) <==> x in xs
    ensures forall i, j :: 0 <= i < j < |FirstOccurrences(xs)| ==> FirstOccurrences(xs)[i] != FirstOccurrences(xs)[j]
  {
    if xs != [] {
      FirstOccurrencesAreTheElements(xs[..|xs| - 1]);
      assert xs == xs[..|xs| - 1] + [xs[|xs| - 1]];
    }
  }

  /** What the counting loop knows of the emojis it has seen. */
  ghost predicate Counted(counts: map<string, nat>, xs: seq<string>) {
    && (forall x :: x in counts <==> x in xs)
    && (forall x :: x in counts ==> counts[x] == Count(xs, x))
  }

  lemma CountOneMore(counts: map<string, nat>, xs: seq<string>, x: string)
    requires Counted(counts, xs)
    ensures Counted(counts[x := (if x in counts then counts[x] else 0) + 1], xs + [x])
    ensures x in counts <==> x in xs
  {
    CountIsPresence(xs, x);
    assert (xs + [x])[..|xs|] == xs;
  }

  method CountLabels(reactions: seq<Reaction>) returns (labels: seq<string>)
    ensures labels == Labels(Emojis(reactions))
  {
    hide Count, Decimal;
    var emojis := Emojis(reactions);
    var order: seq<string> := [];
    var counts: map<string, nat> := map[];
    for i := 0 to |emojis|
      invariant order == FirstOccurrences(emojis[..i])
      invariant Counted(counts, emojis[..i])
    {
      assert emojis[..i + 1][..i] == emojis[..i] && emojis[..i + 1] == emojis[..i] + [emojis[i]];
      CountOneMore(counts, emojis[..i], emojis[i]);
      if emojis[i] !in counts { order := order + [emojis[i]]; }
      counts := counts[emojis[i] := (if emojis[i] in counts then counts[emojis[i]] else 0) + 1];
    }
    assert emojis[..|emojis|] == emojis;
    FirstOccurrencesAreTheElements(emojis);
    labels := seq(|order|, i requires 0 <= i < |order| && (forall k :: 0 <= k < |order| ==> order[k] in counts) =>
                             order[i] + " " + Decimal(counts[order[i]]));
  }

  // ----- the mapping, as filters --------------------------------------------------------------------

  predicate IsConnecting(a: Account) {
    a.state == Connecting
  }

  function Track(a: Account, tracking: map<nat, int>, now: int): map<nat, int> {
    if !IsConnecting(a) then tracking - {a.id}
    else if a.id in tracking then tracking
    else tracking[a.id := now]
  }

  /** Since when accounts have been connecting, after seeing `accounts` at `now`. */
  function TrackAll(accounts: seq<Account>, tracking: map<nat, int>, now: int): map<nat, int> {
    if accounts == [] then tracking
    else Track(accounts[|accounts| - 1], TrackAll(accounts[..|accounts| - 1], tracking, now), now)
  }

  function AccountUiOf(a: Account, tracking: map<nat, int>, now: int): AccountUi {
    AccountUi(a.id, a.jid, a.displayName, if a.state == Online then UiOnline else UiOffline, a.state,
              MucCapability in a.capabilities, a.error,
              IsConnecting(a) && a.id in tracking && now - tracking[a.id] > STALL_THRESHOLD_MS, a.disconnectKind)
  }

  function AccountsUi(accounts: seq<Account>, tracking: map<nat, int>, now: int): seq<AccountUi> {
    seq(|accounts|, i requires 0 <= i < |accounts| =>
                      AccountUiOf(accounts[i], TrackAll(accounts[..i + 1], tracking, now), now))
  }

  predicate Present(accounts: seq<Account>, id: nat) {
    exists i :: 0 <= i < |accounts| && accounts[i].id == id
  }

  function ResolveActive(accounts: seq<Account>, active: nat): nat {
    if active == 0 || !Present(accounts, active) then if accounts == [] then 0 else accounts[0].id else active
  }

  function ContactPresenceUi(p: ContactPresence): Presence {
    match p
    case PresenceOnline => UiOnline
    case Away => UiAway
    case DoNotDisturb => UiDoNotDisturb
    case PresenceOffline => UiOffline
  }

  function ContactsUi(contacts: seq<Contact>): seq<ContactUi> {
    seq(|contacts|, i requires 0 <= i < |contacts| =>
                      ContactUi(contacts[i].account, contacts[i].jid, contacts[i].displayName,
                                ContactPresenceUi(contacts[i].presence), contacts[i].status))
  }

  function ReactedMessage(r: Reaction): nat { r.message }
  function HomeConversation(m: Message): nat { m.conversation }

  function MessageUiOf(m: Message, labels: seq<string>, format: nat -> string): MessageUi {
    MessageUi(m.id, m.sender, m.body, format(m.sentAt), m.direction == Outgoing,
              if m.direction == Outgoing then Some(m.delivery) else None, labels)
  }

  function MessagesUi(messages: seq<Message>, reactions: seq<Reaction>, format: nat -> string): seq<MessageUi> {
    seq(|messages|, i requires 0 <= i < |messages| =>
                      MessageUiOf(messages[i], Labels(Emojis(Matching(reactions, ReactedMessage, messages[i].id))),
                                  format))
  }

  function MessagesByConversation(s: Snapshot, format: nat -> string): map<nat, seq<MessageUi>> {
    map k: nat | k in (set m | m in s.messages :: m.conversation) ::
      MessagesUi(Matching(s.messages, HomeConversation, k), s.reactions, format)
  }

  function ConversationUiOf(v: Conversation, messages: seq<MessageUi>, format: nat -> string): ConversationUi {
    ConversationUi(v.id, v.account, v.title, v.address, if messages == [] then "" else messages[|messages| - 1].body,
                   format(v.lastActivity), v.unread, v.kind == MultiUserChat, v.lastActivity)
  }

  function ConversationsUi(s: Snapshot, format: nat -> string): seq<ConversationUi> {
    seq(|s.conversations|, i requires 0 <= i < |s.conversations| =>
                             ConversationUiOf(s.conversations[i],
                                              MessagesUi(Matching(s.messages, HomeConversation, s.conversations[i].id),
                                                         s.reactions, format), format))
  }

  /** The UI state of a snapshot: every list filtered from the snapshot itself, no index. */
  function MapSnapshot(s: Snapshot, inputs: Inputs, active: nat, since: map<nat, int>, now: int,
                       format: nat -> string): Mapping {
    var resolved := ResolveActive(s.accounts, active);
    Mapping(UiState(AccountsUi(s.accounts, since, now), ContactsUi(s.contacts), resolved, ConversationsUi(s, format),
                    MessagesByConversation(s, format), inputs),
            TrackAll(s.accounts, since, now), resolved)
  }

  // ----- what the mapping shows, field by field ---------------------------------------------------------

  predicate Uses(r: Reaction, message: nat, emoji: string) {
    r.message == message && r.emoji == emoji
  }

  ghost function UsesOf(reactions: seq<Reaction>, message: nat, emoji: string): set<nat> {
    set j: nat | j < |reactions| && Uses(reactions[j], message, emoji)
  }

  /** Some use of `first` on the message comes before any of `second`. */
  ghost predicate UsedBefore(first: string, second: string, reactions: seq<Reaction>, message: nat) {
    exists j: nat ::
      && j < |reactions| && Uses(reactions[j], message, first)
      && forall l: nat :: l <= j ==> !Uses(reactions[l], message, second)
  }

  ghost predicate InOrderOfUse(emojis: seq<string>, reactions: seq<Reaction>, message: nat) {
    forall i, k :: 0 <= i < k < |emojis| ==> UsedBefore(emojis[i], emojis[k], reactions, message)
  }

  /** A label for each emoji used on the message, in order of first use, with the number of uses. */
  ghost predicate LabelsCount(labels: seq<string>, emojis: seq<string>, reactions: seq<Reaction>, message: nat) {
    && |labels| == |emojis|
    && (forall e :: e in emojis <==> UsesOf(reactions, message, e) != {})
    && InOrderOfUse(emojis, reactions, message)
    && (forall i :: 0 <= i < |emojis| ==>
                      labels[i] == emojis[i] + " " + Decimal(|UsesOf(reactions, message, emojis[i])|))
  }

  /** A message as shown: the author's side, a delivery state on own messages only, and a count per emoji. */
  ghost predicate ShowsMessage(ui: MessageUi, m: Message, reactions: seq<Reaction>, format: nat -> string) {
    && ui.id == m.id && ui.sender == m.sender && ui.body == m.body && ui.timestamp == format(m.sentAt)
    && (ui.mine <==> m.direction == Outgoing)
    && ui.delivery == (if m.direction == Outgoing then Some(m.delivery) else None)
    && exists emojis :: LabelsCount(ui.reactions, emojis, reactions, m.id)
  }

  /** The positions of a conversation's messages in the snapshot, in its order. */
  ghost predicate ArePositions(positions: seq<nat>, messages: seq<Message>, conversation: nat) {
    && (forall i, k :: 0 <= i < k < |positions| ==> positions[i] < positions[k])
    && (forall i :: 0 <= i < |positions| ==> positions[i] < |messages|)
    && (forall j: nat :: j in positions <==> j < |messages| && messages[j].conversation == conversation)
  }

  /** Exactly the messages of the conversation, in snapshot order. */
  ghost predicate ShowsMessages(ui: seq<MessageUi>, positions: seq<nat>, s: Snapshot, conversation: nat,
                                format: nat -> string) {
    && ArePositions(positions, s.messages, conversation) && |ui| == |positions|
    && forall i :: 0 <= i < |ui| ==> ShowsMessage(ui[i], s.messages[positions[i]], s.reactions, format)
  }

  ghost predicate IsLastOf(j: nat, messages: seq<Message>, conversation: nat) {
    && j < |messages| && messages[j].conversation == conversation
    && forall l: nat :: j < l < |messages| ==> messages[l].conversation != conversation
  }

  ghost predicate ShowsConversation(ui: ConversationUi, v: Conversation, messages: seq<Message>,
                                    format: nat -> string) {
    && ui.id == v.id && ui.account == v.account && ui.title == v.title && ui.address == v.address
    && ui.unreadCount == v.unread && (ui.isGroup <==> v.kind == MultiUserChat)
    && ui.lastActivity == v.lastActivity && ui.timestamp == format(v.lastActivity)
    && (ui.preview == "" || exists j: nat :: IsLastOf(j, messages, v.id))
    && forall j: nat :: IsLastOf(j, messages, v.id) ==> ui.preview == messages[j].body
  }

  predicate ShowsAccount(ui: AccountUi, a: Account) {
    && ui.id == a.id && ui.jid == a.jid && ui.displayName == a.displayName && ui.connectionState == a.state
    && ui.presence == (if a.state == Online then UiOnline else UiOffline)
    && (ui.supportsGroupChats <==> MucCapability in a.capabilities)
    && ui.connectionError == a.error && ui.disconnectKind == a.disconnectKind
    && (ui.connectionStalled ==> a.state == Connecting)
  }

  predicate ShowsContact(ui: ContactUi, k: Contact) {
    && ui.account == k.account && ui.jid == k.jid && ui.displayName == k.displayName && ui.status == k.status
    && (ui.presence == UiOnline <==> k.presence == PresenceOnline)
    && (ui.presence == UiAway <==> k.presence == Away)
    && (ui.presence == UiDoNotDisturb <==> k.presence == DoNotDisturb)
    && (ui.presence == UiOffline <==> k.presence == PresenceOffline)
  }

  /** The account on display is the one asked for if it is there, else the first, else none. */
  ghost predicate IsActive(shown: nat, asked: nat, accounts: seq<Account>) {
    if exists i :: 0 <= i < |accounts| && accounts[i].id == asked && asked != 0 then shown == asked
    else if accounts != [] then shown == accounts[0].id
    else shown == 0
  }

  /** What is on display is the snapshot, record for record and field for field. */
  ghost predicate Pictures(ui: UiState, s: Snapshot, format: nat -> string) {
    && |ui.accounts| == |s.accounts| && |ui.contacts| == |s.contacts| && |ui.conversations| == |s.conversations|
    && (forall i :: 0 <= i < |s.accounts| ==> ShowsAccount(ui.accounts[i], s.accounts[i]))
    && (forall i :: 0 <= i < |s.contacts| ==> ShowsContact(ui.contacts[i], s.contacts[i]))
    && (forall i :: 0 <= i < |s.conversations| ==>
                      ShowsConversation(ui.conversations[i], s.conversations[i], s.messages, format))
    && (forall k :: k in ui.messagesByConversation <==>
                      exists j :: 0 <= j < |s.messages| && s.messages[j].conversation == k)
    && (forall k :: k in ui.messagesByConversation ==>
                      exists positions :: ShowsMessages(ui.messagesByConversation[k], positions, s, k, format))
  }

  lemma EmojisOfOneMore(reactions: seq<Reaction>, message: nat)
    requires reactions != []
    ensures var last := reactions[|reactions| - 1];
            Emojis(Matching(reactions, ReactedMessage, message)) ==
            Emojis(Matching(reactions[..|reactions| - 1], ReactedMessage, message))
            + if last.message == message then [last.emoji] else []
  {
  }

  lemma UsesOfOneMore(reactions: seq<Reaction>, message: nat, emoji: string)
    requires reactions != []
    ensures var n := |reactions| - 1;
            UsesOf(reactions, message, emoji) ==
            UsesOf(reactions[..n], message, emoji) + if Uses(reactions[n], message, emoji) then {n} else {}
  {
  }

  lemma {:induction false} CountIsUses(reactions: seq<Reaction>, message: nat, emoji: string)
    ensures Count(Emojis(Matching(reactions, ReactedMessage, message)), emoji) == |UsesOf(reactions, message, emoji)|
  {
    hide UsesOf, Emojis, Matching;
    var emojis := Emojis(Matching(reactions, ReactedMessage, message));
    if reactions == [] {
      NoUses(message, emoji);
    } else {
      var n := |reactions| - 1;
      CountIsUses(reactions[..n], message, emoji);
      EmojisOfOneMore(reactions, message);
      UsesOfOneMore(reactions, message, emoji);
      LastIsNoEarlierUse(reactions, message, emoji);
      var before := Emojis(Matching(reactions[..n], ReactedMessage, message));
      if reactions[n].message == message {
        assert emojis[..|emojis| - 1] == before;
      } else {
        assert emojis == before;
      }
    }
  }

  lemma NoUses(message: nat, emoji: string)
    ensures UsesOf([], message, emoji) == {} && Emojis(Matching([], ReactedMessage, message)) == []
  {
  }

  lemma LastIsNoEarlierUse(reactions: seq<Reaction>, message: nat, emoji: string)
    requires reactions != []
    ensures |reactions| - 1 !in UsesOf(reactions[..|reactions| - 1], message, emoji)
  {
  }

  lemma {:induction false} OrderIsOfFirstUse(reactions: seq<Reaction>, message: nat)
    ensures InOrderOfUse(FirstOccurrences(Emojis(Matching(reactions, ReactedMessage, message))), reactions, message)
  {
    hide Emojis, Matching, UsedBefore, UsesOf;
    var emojis := Emojis(Matching(reactions, ReactedMessage, message));
    var order := FirstOccurrences(emojis);
    if reactions == [] {
      NoUses(message, "");
    } else {
      var n := |reactions| - 1;
      var front := reactions[..n];
      var before := Emojis(Matching(front, ReactedMessage, message));
      OrderIsOfFirstUse(front, message);
      var earlier := FirstOccurrences(before);
      assert InOrderOfUse(earlier, front, message);
      EmojisOfOneMore(reactions, message);
      if reactions[n].message == message {
        assert emojis[..|emojis| - 1] == before;
        FirstOccurrencesAreTheElements(before);
      } else {
        assert emojis == before;
      }
      assert forall i :: 0 <= i < |earlier| ==> order[i] == earlier[i];
      forall i, k | 0 <= i < k < |order| ensures UsedBefore(order[i], order[k], reactions, message) {
        if k < |earlier| {
          assert UsedBefore(earlier[i], earlier[k], front, message);
          UsedBeforeStays(order[i], order[k], reactions, message);
        } else {
          UsedForTheFirstTime(order[i], order[k], reactions, message);
        }
      }
    }
  }

  lemma UsedBeforeStays(first: string, second: string, reactions: seq<Reaction>, message: nat)
    requires reactions != [] && UsedBefore(first, second, reactions[..|reactions| - 1], message)
    ensures UsedBefore(first, second, reactions, message)
  {
    var front := reactions[..|reactions| - 1];
    var j: nat :| j < |front| && Uses(front[j], message, first)
                  && forall l: nat :: l <= j ==> !Uses(front[l], message, second);
    assert forall l: nat :: l <= j ==> reactions[l] == front[l];
  }

  lemma UsedForTheFirstTime(first: string, second: string, reactions: seq<Reaction>, message: nat)
    requires reactions != []
    requires var before := Emojis(Matching(reactions[..|reactions| - 1], ReactedMessage, message));
             first in before && second !in before
    ensures UsedBefore(first, second, reactions, message)
  {
    hide Emojis, Matching;
    var front := reactions[..|reactions| - 1];
    var before := Emojis(Matching(front, ReactedMessage, message));
    CountIsPresence(before, first);
    CountIsPresence(before, second);
    CountIsUses(front, message, first);
    CountIsUses(front, message, second);
    assert UsesOf(front, message, second) == {};
    var j :| j in UsesOf(front, message, first);
    assert Uses(reactions[j], message, first);
    forall l: nat | l <= j ensures !Uses(reactions[l], message, second) {
      assert front[l] == reactions[l] && l !in UsesOf(front, message, second);
    }
  }

  lemma LabelsAreCounted(reactions: seq<Reaction>, message: nat)
    ensures var emojis := Emojis(Matching(reactions, ReactedMessage, message));
            LabelsCount(Labels(emojis), FirstOccurrences(emojis), reactions, message)
  {
    hide Emojis, Matching, UsedBefore, UsesOf, Decimal, FirstOccurrences, Count;
    var emojis := Emojis(Matching(reactions, ReactedMessage, message));
    FirstOccurrencesAreTheElements(emojis);
    OrderIsOfFirstUse(reactions, message);
    forall e ensures e in emojis <==> UsesOf(reactions, message, e) != {}
             ensures Count(emojis, e) == |UsesOf(reactions, message, e)|
    {
      CountIsPresence(emojis, e);
      CountIsUses(reactions, message, e);
    }
  }

  lemma {:induction false} MatchingPositions(messages: seq<Message>, k: nat) returns (positions: seq<nat>)
    ensures ArePositions(positions, messages, k)
    ensures |positions| == |Matching(messages, HomeConversation, k)|
    ensures forall i :: 0 <= i < |positions| ==>
                          messages[positions[i]] == Matching(messages, HomeConversation, k)[i]
  {
    hide ArePositions;
    if messages == [] {
      positions := [];
      NoPositions(k);
    } else {
      var n := |messages| - 1;
      var earlier := MatchingPositions(messages[..n], k);
      PositionsAreInside(earlier, messages[..n], k);
      OneMorePosition(earlier, messages, k);
      positions := earlier + if messages[n].conversation == k then [n] else [];
    }
  }

  lemma NoPositions(k: nat)
    ensures ArePositions([], [], k)
  {
  }

  lemma OneMorePosition(earlier: seq<nat>, messages: seq<Message>, k: nat)
    requires messages != [] && ArePositions(earlier, messages[..|messages| - 1], k)
    ensures var n := |messages| - 1;
            ArePositions(earlier + if messages[n].conversation == k then [n] else [], messages, k)
  {
    var n := |messages| - 1;
    var positions := earlier + if messages[n].conversation == k then [n] else [];
    forall j: nat ensures j in positions <==> j < |messages| && messages[j].conversation == k {
      assert j in positions <==> j in earlier || (j == n && messages[n].conversation == k);
    }
  }

  lemma MessagesAreShown(s: Snapshot, k: nat, format: nat -> string) returns (positions: seq<nat>)
    ensures ShowsMessages(MessagesUi(Matching(s.messages, HomeConversation, k), s.reactions, format), positions, s, k,
                          format)
  {
    hide LabelsCount, Labels, Emojis, Matching, ArePositions;
    positions := MatchingPositions(s.messages, k);
    PositionsAreInside(positions, s.messages, k);
    forall i | 0 <= i < |positions|
      ensures ShowsMessage(MessagesUi(Matching(s.messages, HomeConversation, k), s.reactions, format)[i],
                           s.messages[positions[i]], s.reactions, format)
    {
      LabelsAreCounted(s.reactions, s.messages[positions[i]].id);
    }
  }

  lemma PositionsAreInside(positions: seq<nat>, messages: seq<Message>, k: nat)
    requires ArePositions(positions, messages, k)
    ensures forall i :: 0 <= i < |positions| ==> positions[i] < |messages|
  {
  }

  lemma LastPositionIsLast(positions: seq<nat>, messages: seq<Message>, k: nat, j: nat)
    requires ArePositions(positions, messages, k)
    ensures IsLastOf(j, messages, k) <==> positions != [] && j == positions[|positions| - 1]
  {
    if positions != [] {
      assert positions[|positions| - 1] in positions;
    }
  }

  lemma ConversationIsShown(s: Snapshot, v: Conversation, format: nat -> string)
    ensures var messages := MessagesUi(Matching(s.messages, HomeConversation, v.id), s.reactions, format);
            ShowsConversation(ConversationUiOf(v, messages, format), v, s.messages, format)
  {
    hide LabelsCount, Matching, MessagesUi, ArePositions, IsLastOf;
    var positions := MessagesAreShown(s, v.id, format);
    PositionsAreInside(positions, s.messages, v.id);
    forall j: nat ensures IsLastOf(j, s.messages, v.id) <==> positions != [] && j == positions[|positions| - 1] {
      LastPositionIsLast(positions, s.messages, v.id, j);
    }
    if positions != [] {
      var last := |positions| - 1;
      assert IsLastOf(positions[last], s.messages, v.id);
      assert ShowsMessage(MessagesUi(Matching(s.messages, HomeConversation, v.id), s.reactions, format)[last],
                          s.messages[positions[last]], s.reactions, format);
    }
  }

  /** The mapping pictures its snapshot, with the inputs as they are and the account that was asked for. */
  lemma MappingPictures(s: Snapshot, inputs: Inputs, active: nat, since: map<nat, int>, now: int,
                        format: nat -> string)
    ensures var m := MapSnapshot(s, inputs, active, since, now, format);
            && Pictures(m.state, s, format) && m.state.inputs == inputs
            && IsActive(m.activeAccountId, active, s.accounts) && m.state.activeAccountId == m.activeAccountId
  {
    hide Matching, MessagesUi, ShowsMessages, ShowsConversation, ConversationUiOf, TrackAll;
    forall i | 0 <= i < |s.conversations|
      ensures ShowsConversation(ConversationsUi(s, format)[i], s.conversations[i], s.messages, format)
    {
      ConversationIsShown(s, s.conversations[i], format);
    }
    var shown := MessagesByConversation(s, format);
    forall k | k in shown ensures exists positions :: ShowsMessages(shown[k], positions, s, k, format) {
      var positions := MessagesAreShown(s, k, format);
    }
  }

  // ----- the mapping, as the program computes it ------------------------------------------------------

  lemma {:induction false} MatchingIsNonEmpty<T>(xs: seq<T>, key: T -> nat, k: nat)
    ensures Matching(xs, key, k) != [] <==> exists i :: 0 <= i < |xs| && key(xs[i]) == k
    ensures forall x :: x in Matching(xs, key, k) ==> key(x) == k && x in xs
  {
    if xs != [] {
      MatchingIsNonEmpty(xs[..|xs| - 1], key, k);
      assert xs == xs[..|xs| - 1] + [xs[|xs| - 1]];
      if key(xs[|xs| - 1]) != k && exists i :: 0 <= i < |xs| && key(xs[i]) == k {
        var i :| 0 <= i < |xs| && key(xs[i]) == k;
        assert xs[..|xs| - 1][i] == xs[i];
      }
    }
  }

  method MapMessages(messages: seq<Message>, reactionsByMessage: map<nat, seq<Reaction>>, reactions: seq<Reaction>,
                     format: nat -> string) returns (ui: seq<MessageUi>)
    requires Groups(reactionsByMessage, reactions, ReactedMessage)
    ensures ui == MessagesUi(messages, reactions, format)
  {
    ui := [];
    for i := 0 to |messages|
      invariant |ui| == i
      invariant forall k :: 0 <= k < i ==> ui[k] == MessagesUi(messages, reactions, format)[k]
    {
      var m := messages[i];
      var found := if m.id in reactionsByMessage then reactionsByMessage[m.id] else [];
      var labels := CountLabels(found);
      ui := ui + [MessageUiOf(m, labels, format)];
    }
  }

  method MapConversationMessages(s: Snapshot, format: nat -> string) returns (ui: map<nat, seq<MessageUi>>)
    ensures ui == MessagesByConversation(s, format)
  {
    var reactionsByMessage := GroupBy(s.reactions, ReactedMessage);
    var grouped := GroupBy(s.messages, HomeConversation);
    forall k ensures k in grouped <==> k in (set m | m in s.messages :: m.conversation) {
      MatchingIsNonEmpty(s.messages, HomeConversation, k);
    }
    ui := map[];
    var todo := grouped.Keys;
    while todo != {}
      invariant todo <= grouped.Keys
      invariant ui.Keys == grouped.Keys - todo
      invariant forall k :: k in ui ==> ui[k] == MessagesUi(grouped[k], s.reactions, format)
      decreases todo
    {
      var k :| k in todo;
      var mapped := MapMessages(grouped[k], reactionsByMessage, s.reactions, format);
      ui := ui[k := mapped];
      todo := todo - {k};
    }
  }

  /** The accounts in order, each entering or leaving the tracking map as it is visited. */
  method MapAccounts(accounts: seq<Account>, since: map<nat, int>, now: int)
    returns (ui: seq<AccountUi>, tracking: map<nat, int>)
    ensures ui == AccountsUi(accounts, since, now)
    ensures tracking == TrackAll(accounts, since, now)
  {
    ui, tracking := [], since;
    for i := 0 to |accounts|
      invariant |ui| == i
      invariant tracking == TrackAll(accounts[..i], since, now)
      invariant forall k :: 0 <= k < i ==> ui[k] == AccountsUi(accounts, since, now)[k]
    {
      assert accounts[..i + 1][..i] == accounts[..i];
      var a := accounts[i];
      var start := None;
      if a.state == Connecting {
        if a.id !in tracking { tracking := tracking[a.id := now]; }
        start := Some(tracking[a.id]);
      } else {
        tracking := tracking - {a.id};
      }
      var presence := if a.state == Online then UiOnline else UiOffline;
      ui := ui + [AccountUi(a.id, a.jid, a.displayName, presence, a.state, MucCapability in a.capabilities, a.error,
                            a.state == Connecting && start.Some? && now - start.value > STALL_THRESHOLD_MS,
                            a.disconnectKind)];
    }
    assert accounts[..|accounts|] == accounts;
  }

  lemma NothingToMap(reactions: seq<Reaction>, format: nat -> string)
    ensures MessagesUi([], reactions, format) == []
  {
  }

  method MapConversations(s: Snapshot, byConversation: map<nat, seq<MessageUi>>, format: nat -> string)
    returns (ui: seq<ConversationUi>)
    requires byConversation == MessagesByConversation(s, format)
    ensures ui == ConversationsUi(s, format)
  {
    hide MessagesUi;
    NothingToMap(s.reactions, format);
    ui := [];
    for i := 0 to |s.conversations|
      invariant |ui| == i
      invariant forall k :: 0 <= k < i ==> ui[k] == ConversationsUi(s, format)[k]
    {
      var v := s.conversations[i];
      MatchingIsNonEmpty(s.messages, HomeConversation, v.id);
      var messages := if v.id in byConversation then byConversation[v.id] else [];
      ui := ui + [ConversationUiOf(v, messages, format)];
    }
  }

  /** The accounts on display decide the active one as the snapshot's do. */
  lemma ResolvedOnDisplay(accounts: seq<Account>, tracking: map<nat, int>, now: int, active: nat)
    ensures var ui := AccountsUi(accounts, tracking, now);
            ResolveActive(accounts, active) ==
            if active == 0 || !(exists i :: 0 <= i < |ui| && ui[i].id == active)
            then (if ui == [] then 0 else ui[0].id) else active
  {
    hide TrackAll;
    var ui := AccountsUi(accounts, tracking, now);
    assert forall i :: 0 <= i < |accounts| ==> ui[i].id == accounts[i].id;
  }

  /** Indexing reactions and messages once gives the state that filtering for each record would. */
  method MapSnapshotToUiState(s: Snapshot, inputs: Inputs, active: nat, since: map<nat, int>, now: int,
                              format: nat -> string) returns (mapping: Mapping)
    ensures mapping == MapSnapshot(s, inputs, active, since, now, format)
    ensures Pictures(mapping.state, s, format) && mapping.state.inputs == inputs
    ensures IsActive(mapping.activeAccountId, active, s.accounts)
  {
    hide Pictures, IsActive, MessagesByConversation, ConversationsUi, ContactsUi, AccountsUi, TrackAll, ResolveActive;
    var accounts, tracking := MapAccounts(s.accounts, since, now);
    var resolved := if active == 0 || !(exists i :: 0 <= i < |accounts| && accounts[i].id == active)
                    then (if accounts == [] then 0 else accounts[0].id) else active;
    ResolvedOnDisplay(s.accounts, since, now, active);
    var byConversation := MapConversationMessages(s, format);
    var contacts := ContactsUi(s.contacts);
    var conversations := MapConversations(s, byConversation, format);
    mapping := Mapping(UiState(accounts, contacts, resolved, conversations, byConversation, inputs), tracking,
                       resolved);
    MappingPictures(s, inputs, active, since, now, format);
  }

  // ----- skipping is invisible ------------------------------------------------------------------------

  predicate NoneConnecting(accounts: seq<Account>) {
    forall i :: 0 <= i < |accounts| ==> !IsConnecting(accounts[i])
  }

  function ShouldSkipUiRebuild(s: Snapshot, lastSnapshot: Option<Snapshot>, publishedActive: nat, active: nat,
                               inputs: Inputs, lastInputs: Inputs): bool {
    && lastSnapshot == Some(s)
    && active == publishedActive
    && inputs == lastInputs
    && NoneConnecting(s.accounts)
  }

  lemma {:induction false} QuietTracking(accounts: seq<Account>, tracking: map<nat, int>, now: int)
    requires NoneConnecting(accounts)
    ensures TrackAll(accounts, tracking, now) == tracking - (set i | 0 <= i < |accounts| :: accounts[i].id)
  {
    if accounts != [] {
      var front := accounts[..|accounts| - 1];
      QuietTracking(front, tracking, now);
      assert (set i | 0 <= i < |accounts| :: accounts[i].id) ==
             (set i | 0 <= i < |front| :: front[i].id) + {accounts[|accounts| - 1].id};
    }
  }

  lemma ActiveResolutionIsIdempotent(accounts: seq<Account>, active: nat)
    ensures ResolveActive(accounts, ResolveActive(accounts, active)) == ResolveActive(accounts, active)
  {
    if accounts != [] {
      assert Present(accounts, accounts[0].id);
    }
  }

  lemma QuietAccounts(accounts: seq<Account>, tracking: map<nat, int>, now: int, since: map<nat, int>, later: int)
    requires NoneConnecting(accounts)
    ensures AccountsUi(accounts, tracking, now) == AccountsUi(accounts, since, later)
  {
  }

  /** With nothing connecting, mapping the result of a mapping again changes nothing, whatever the clock says. */
  lemma SkippedRebuildIsANoOp(s: Snapshot, inputs: Inputs, active: nat, since: map<nat, int>, now: int, later: int,
                              format: nat -> string)
    requires NoneConnecting(s.accounts)
    ensures var first := MapSnapshot(s, inputs, active, since, now, format);
            MapSnapshot(s, inputs, first.activeAccountId, first.connectingSince, later, format) == first
  {
    hide Present;
    var first := MapSnapshot(s, inputs, active, since, now, format);
    ActiveResolutionIsIdempotent(s.accounts, active);
    QuietTracking(s.accounts, since, now);
    QuietTracking(s.accounts, first.connectingSince, later);
    QuietAccounts(s.accounts, since, now, first.connectingSince, later);
    assert TrackAll(s.accounts, first.connectingSince, later) == first.connectingSince;
  }

  // ----- runs of refreshes ------------------------------------------------------------------------------

  /** Between refreshes the gateway's inputs and its active account change arbitrarily. */
  datatype Event =
    | Change(inputs: Inputs)
    | Select(active: nat)
    | Refresh(snapshot: Snapshot, now: int)

  datatype Gateway = Gateway(state: UiState, active: nat, since: map<nat, int>, inputs: Inputs,
                             lastSnapshot: Option<Snapshot>, lastInputs: Inputs)

  function Publish(g: Gateway, s: Snapshot, now: int, format: nat -> string): Gateway {
    var mapping := MapSnapshot(s, g.inputs, g.active, g.since, now, format);
    Gateway(mapping.state, mapping.activeAccountId, mapping.connectingSince, g.inputs, Some(s), g.inputs)
  }

  function Skips(g: Gateway, e: Event): bool {
    e.Refresh?
    && ShouldSkipUiRebuild(e.snapshot, g.lastSnapshot, g.state.activeAccountId, g.active, g.inputs, g.lastInputs)
  }

  /** The gateway that rebuilds on every refresh, and the one that skips. */
  function Rebuilding(g: Gateway, e: Event, format: nat -> string): Gateway {
    match e
    case Change(inputs) => g.(inputs := inputs)
    case Select(active) => g.(active := active)
    case Refresh(s, now) => Publish(g, s, now, format)
  }

  function Caching(g: Gateway, e: Event, format: nat -> string): Gateway {
    if Skips(g, e) then g else Rebuilding(g, e, format)
  }

  function RunRebuilding(g: Gateway, events: seq<Event>, format: nat -> string): Gateway
    decreases |events|
  {
    if events == [] then g else RunRebuilding(Rebuilding(g, events[0], format), events[1..], format)
  }

  function RunCaching(g: Gateway, events: seq<Event>, format: nat -> string): Gateway
    decreases |events|
  {
    if events == [] then g else RunCaching(Caching(g, events[0], format), events[1..], format)
  }

  /** What is published came from mapping the remembered snapshot and inputs. */
  ghost predicate Fresh(g: Gateway, format: nat -> string) {
    g.lastSnapshot.Some? ==>
      exists active, since, now ::
        var m := MapSnapshot(g.lastSnapshot.value, g.lastInputs, active, since, now, format);
        g.state == m.state && g.since == m.connectingSince
  }

  lemma PublishIsFresh(g: Gateway, s: Snapshot, now: int, format: nat -> string)
    ensures Fresh(Publish(g, s, now, format), format)
  {
    hide MapSnapshot;
  }

  /** A refresh that is skipped would have rebuilt exactly what is published, at any clock value. */
  lemma SkipIsRebuild(g: Gateway, e: Event, later: int, format: nat -> string)
    requires Fresh(g, format) && Skips(g, e)
    ensures Publish(g, e.snapshot, later, format) == g
  {
    var active, since, now :| var m := MapSnapshot(g.lastSnapshot.value, g.lastInputs, active, since, now, format);
                              g.state == m.state && g.since == m.connectingSince;
    SkippedRebuildIsANoOp(e.snapshot, g.inputs, active, since, now, later, format);
  }

  /** The caching gateway is the rebuilding one: same published state, active account and stall bookkeeping after
      every sequence of changes and refreshes. */
  lemma {:induction false} CacheRefinesRebuilding(g: Gateway, events: seq<Event>, format: nat -> string)
    requires Fresh(g, format)
    ensures RunCaching(g, events, format) == RunRebuilding(g, events, format)
    ensures Fresh(RunCaching(g, events, format), format)
    decreases |events|
  {
    hide Fresh, MapSnapshot;
    if events != [] {
      var e := events[0];
      if Skips(g, e) {
        SkipIsRebuild(g, e, e.now, format);
      } else if e.Refresh? {
        PublishIsFresh(g, e.snapshot, e.now, format);
      } else {
        OtherEventsKeepFresh(g, e, format);
      }
      CacheRefinesRebuilding(Caching(g, e, format), events[1..], format);
    }
  }

  lemma OtherEventsKeepFresh(g: Gateway, e: Event, format: nat -> string)
    requires Fresh(g, format) && !e.Refresh?
    ensures Fresh(Rebuilding(g, e, format), format)
  {
  }

  /** The clock matters only while something is connecting: it may be any value at every other refresh. */
  lemma ClockIsIrrelevantUnlessConnecting(g: Gateway, s: Snapshot, now: int, later: int, format: nat -> string)
    requires NoneConnecting(s.accounts)
    ensures Publish(g, s, now, format) == Publish(g, s, later, format)
  {
    QuietTracking(s.accounts, g.since, now);
    QuietTracking(s.accounts, g.since, later);
    QuietAccounts(s.accounts, g.since, now, g.since, later);
  }

  // ----- stall tracking -----------------------------------------------------------------------------------

  predicate DistinctAccounts(s: Snapshot) {
    forall i, j :: 0 <= i < j < |s.accounts| ==> s.accounts[i].id != s.accounts[j].id
  }

  lemma CoreSnapshotsAreDistinct(c: Core)
    requires Keyed(c)
    ensures DistinctAccounts(Take(c))
  {
    TakeIsSorted(c);
    var s := Take(c);
    assert forall i, j :: 0 <= i < j < |s.accounts| ==> AccountKey(s.accounts[i]) < AccountKey(s.accounts[j]);
  }

  predicate Shows(s: Snapshot, a: nat, connecting: bool) {
    exists i :: 0 <= i < |s.accounts| && s.accounts[i].id == a && IsConnecting(s.accounts[i]) == connecting
  }

  /** A mapping: the snapshot mapped and the clock value it was mapped at. */
  datatype Mapped = Mapped(snapshot: Snapshot, now: int)

  function History(events: seq<Event>): seq<Mapped> {
    if events == [] then []
    else
      History(events[..|events| - 1])
      + if events[|events| - 1].Refresh? then [Mapped(events[|events| - 1].snapshot, events[|events| - 1].now)] else []
  }

  function TrackHistory(h: seq<Mapped>): map<nat, int> {
    if h == [] then map[]
    else TrackAll(h[|h| - 1].snapshot.accounts, TrackHistory(h[..|h| - 1]), h[|h| - 1].now)
  }

  /** Mapping `i` began the present connecting run of `a`: it shows `a` connecting, no later mapping shows it settled,
      and after every earlier sight of it connecting it was seen settled again before `i`. */
  ghost predicate BeganAt(h: seq<Mapped>, a: nat, i: int) {
    && 0 <= i < |h| && Shows(h[i].snapshot, a, true)
    && (forall j :: i < j < |h| ==> !Shows(h[j].snapshot, a, false))
    && (forall k :: 0 <= k < i && Shows(h[k].snapshot, a, true) ==>
                      exists j :: k < j < i && Shows(h[j].snapshot, a, false))
  }

  lemma {:induction false} TrackAbsent(accounts: seq<Account>, tracking: map<nat, int>, now: int, a: nat)
    requires forall i :: 0 <= i < |accounts| ==> accounts[i].id != a
    ensures var t := TrackAll(accounts, tracking, now);
            (a in t <==> a in tracking) && (a in t ==> t[a] == tracking[a])
  {
    if accounts != [] {
      TrackAbsent(accounts[..|accounts| - 1], tracking, now, a);
    }
  }

  lemma {:induction false} TrackPresent(accounts: seq<Account>, tracking: map<nat, int>, now: int, i: nat)
    requires forall i, j :: 0 <= i < j < |accounts| ==> accounts[i].id != accounts[j].id
    requires i < |accounts|
    ensures var t, a := TrackAll(accounts, tracking, now), accounts[i].id;
            if IsConnecting(accounts[i]) then a in t && t[a] == (if a in tracking then tracking[a] else now)
            else a !in t
  {
    var front := accounts[..|accounts| - 1];
    if i == |front| {
      TrackAbsent(front, tracking, now, accounts[i].id);
    } else {
      TrackPresent(front, tracking, now, i);
    }
  }

  lemma TrackMapped(m: Mapped, tracking: map<nat, int>, a: nat)
    requires DistinctAccounts(m.snapshot)
    ensures var t := TrackAll(m.snapshot.accounts, tracking, m.now);
            && (Shows(m.snapshot, a, true) ==>
                  !Shows(m.snapshot, a, false) && a in t && t[a] == (if a in tracking then tracking[a] else m.now))
            && (Shows(m.snapshot, a, false) ==> a !in t)
            && (!Shows(m.snapshot, a, true) && !Shows(m.snapshot, a, false) ==>
                  (a in t <==> a in tracking) && (a in t ==> t[a] == tracking[a]))
  {
    if i :| 0 <= i < |m.snapshot.accounts| && m.snapshot.accounts[i].id == a {
      TrackPresent(m.snapshot.accounts, tracking, m.now, i);
      assert Shows(m.snapshot, a, IsConnecting(m.snapshot.accounts[i]));
    } else {
      TrackAbsent(m.snapshot.accounts, tracking, m.now, a);
    }
  }

  /** An account is tracked exactly when it was seen connecting and not settled since, and its entry is the clock
      value of the mapping that began that run. */
  lemma {:induction false} EntryIsStartOfRun(h: seq<Mapped>, a: nat) returns (i: int)
    requires forall k :: 0 <= k < |h| ==> DistinctAccounts(h[k].snapshot)
    ensures a in TrackHistory(h) ==> BeganAt(h, a, i) && TrackHistory(h)[a] == h[i].now
    ensures a !in TrackHistory(h) ==>
              forall k :: 0 <= k < |h| && Shows(h[k].snapshot, a, true) ==>
                            exists j :: k < j < |h| && Shows(h[j].snapshot, a, false)
  {
    hide Shows, TrackAll, DistinctAccounts;
    if h == [] { return 0; }
    var front, last := h[..|h| - 1], h[|h| - 1];
    i := EntryIsStartOfRun(front, a);
    TrackMapped(last, TrackHistory(front), a);
    assert forall k :: 0 <= k < |front| ==> front[k] == h[k];
    if Shows(last.snapshot, a, true) && a !in TrackHistory(front) {
      i := |front|;
    } else if a !in TrackHistory(h) {
      forall k | 0 <= k < |h| && Shows(h[k].snapshot, a, true)
        ensures exists j :: k < j < |h| && Shows(h[j].snapshot, a, false)
      {
        if Shows(last.snapshot, a, false) {
          assert k < |front| < |h| && Shows(h[|front|].snapshot, a, false);
        }
      }
    }
  }

  lemma StartOfRunIsUnique(h: seq<Mapped>, a: nat, i: int, k: int)
    requires BeganAt(h, a, i) && BeganAt(h, a, k)
    ensures i == k
  {
  }

  lemma TrackedPrefix(accounts: seq<Account>, tracking: map<nat, int>, now: int, i: nat)
    requires forall i, j :: 0 <= i < j < |accounts| ==> accounts[i].id != accounts[j].id
    requires i < |accounts|
    ensures var a := accounts[i].id;
            var t, u := TrackAll(accounts, tracking, now), TrackAll(accounts[..i + 1], tracking, now);
            (a in t <==> a in u) && (a in t ==> t[a] == u[a])
  {
    TrackPresent(accounts, tracking, now, i);
    TrackPresent(accounts[..i + 1], tracking, now, i);
  }

  /** The present connecting run of `a` began more than 35 seconds ago. */
  ghost predicate RunIsOld(h: seq<Mapped>, a: nat, now: int) {
    exists i :: BeganAt(h, a, i) && now - h[i].now > 35000
  }

  /** An account is shown stalled exactly when it is connecting and its run began more than 35 seconds ago. */
  lemma StalledIffRunIsOld(h: seq<Mapped>, k: nat)
    requires h != [] && forall i :: 0 <= i < |h| ==> DistinctAccounts(h[i].snapshot)
    requires k < |h[|h| - 1].snapshot.accounts|
    ensures var last := h[|h| - 1];
            var ui := AccountsUi(last.snapshot.accounts, TrackHistory(h[..|h| - 1]), last.now)[k];
            ui.connectionStalled <==>
            last.snapshot.accounts[k].state == Connecting && RunIsOld(h, last.snapshot.accounts[k].id, last.now)
  {
    hide TrackAll, BeganAt;
    var last := h[|h| - 1];
    var a := last.snapshot.accounts[k];
    TrackedPrefix(last.snapshot.accounts, TrackHistory(h[..|h| - 1]), last.now, k);
    TrackMapped(last, TrackHistory(h[..|h| - 1]), a.id);
    assert Shows(last.snapshot, a.id, IsConnecting(a));
    var i := EntryIsStartOfRun(h, a.id);
    forall j | IsConnecting(a) && BeganAt(h, a.id, j) ensures j == i {
      StartOfRunIsUnique(h, a.id, i, j);
    }
  }

  /** The bookkeeping of any run, skipped refreshes included, is that of its mapping history. */
  lemma {:induction false} RunTracksHistory(g: Gateway, events: seq<Event>, format: nat -> string)
    requires g.since == map[]
    ensures RunRebuilding(g, events, format).since == TrackHistory(History(events))
    decreases |events|
  {
    hide MapSnapshot, TrackAll;
    if events != [] {
      var front, last := events[..|events| - 1], events[|events| - 1];
      RunTracksHistory(g, front, format);
      RunLast(g, events, format);
      PublishTracks(RunRebuilding(g, front, format), last, format);
      var h := History(events);
      if last.Refresh? {
        assert h[..|h| - 1] == History(front);
      } else {
        assert h == History(front);
      }
    }
  }

  lemma PublishTracks(g: Gateway, e: Event, format: nat -> string)
    ensures Rebuilding(g, e, format).since ==
            if e.Refresh? then TrackAll(e.snapshot.accounts, g.since, e.now) else g.since
  {
  }

  lemma {:induction false} RunLast(g: Gateway, events: seq<Event>, format: nat -> string)
    requires events != []
    ensures RunRebuilding(g, events, format) ==
            Rebuilding(RunRebuilding(g, events[..|events| - 1], format), events[|events| - 1], format)
    decreases |events|
  {
    hide Rebuilding;
    if |events| > 1 {
      assert events[..|events| - 1][1..] == events[1..][..|events| - 2];
      RunLast(Rebuilding(g, events[0], format), events[1..], format);
    } else {
      assert events[1..] == [] && events[..0] == [];
    }
  }

  /** Stall tracking through the cache: after any run from a fresh gateway, skipped refreshes included, an account
      is tracked since the first refresh of its unbroken connecting run. */
  lemma CachedStallTracking(g: Gateway, events: seq<Event>, format: nat -> string, a: nat)
    requires g.since == map[] && g.lastSnapshot == None
    requires forall k :: 0 <= k < |History(events)| ==> DistinctAccounts(History(events)[k].snapshot)
    ensures var h, since := History(events), RunCaching(g, events, format).since;
            && (a in since <==> exists i :: BeganAt(h, a, i))
            && (forall i :: BeganAt(h, a, i) ==> a in since && since[a] == h[i].now)
  {
    hide RunCaching, RunRebuilding, DistinctAccounts, TrackAll;
    var h := History(events);
    CacheRefinesRebuilding(g, events, format);
    RunTracksHistory(g, events, format);
    var i := EntryIsStartOfRun(h, a);
    forall j | BeganAt(h, a, j) ensures a in TrackHistory(h) && TrackHistory(h)[a] == h[j].now {
      if a in TrackHistory(h) {
        StartOfRunIsUnique(h, a, i, j);
      }
    }
  }

  // ----- what is on display after any run ------------------------------------------------------------------

  /** The inputs after the changes of a run. */
  function LastInputs(inputs: Inputs, events: seq<Event>): Inputs {
    if events == [] then inputs
    else if events[|events| - 1].Change? then events[|events| - 1].inputs
    else LastInputs(inputs, events[..|events| - 1])
  }

  lemma {:induction false} RunKeepsLastInputs(g: Gateway, events: seq<Event>, format: nat -> string)
    ensures RunRebuilding(g, events, format).inputs == LastInputs(g.inputs, events)
  {
    hide MapSnapshot;
    if events != [] {
      RunLast(g, events, format);
      RunKeepsLastInputs(g, events[..|events| - 1], format);
    }
  }

  /** After any run that ends with a refresh, rebuilt or skipped, the display pictures the snapshot just taken and the
      inputs as last changed; and an account is shown stalled exactly when it is connecting and the unbroken run of
      refreshes that saw it connecting began more than 35 seconds before. */
  lemma DisplayIsCurrent(g: Gateway, events: seq<Event>, format: nat -> string)
    requires g.since == map[] && g.lastSnapshot == None
    requires events != [] && events[|events| - 1].Refresh?
    requires forall i :: 0 <= i < |History(events)| ==> DistinctAccounts(History(events)[i].snapshot)
    ensures var shown, last, h := RunCaching(g, events, format), events[|events| - 1], History(events);
            && Pictures(shown.state, last.snapshot, format)
            && shown.state.inputs == LastInputs(g.inputs, events)
            && |shown.state.accounts| == |last.snapshot.accounts|
            && forall k :: 0 <= k < |last.snapshot.accounts| ==>
                 (shown.state.accounts[k].connectionStalled <==>
                  last.snapshot.accounts[k].state == Connecting
                  && RunIsOld(h, last.snapshot.accounts[k].id, last.now))
  {
    hide RunCaching, RunRebuilding, DistinctAccounts, TrackAll, Pictures, IsActive, RunIsOld, TrackHistory,
         AccountsUi, MessagesByConversation, ConversationsUi, ContactsUi, ResolveActive;
    var front, last, h := events[..|events| - 1], events[|events| - 1], History(events);
    var before := RunRebuilding(g, front, format);
    CacheRefinesRebuilding(g, events, format);
    RunLast(g, events, format);
    RunTracksHistory(g, front, format);
    RunKeepsLastInputs(g, front, format);
    MappingPictures(last.snapshot, before.inputs, before.active, before.since, last.now, format);
    assert h[..|h| - 1] == History(front) && h[|h| - 1] == Mapped(last.snapshot, last.now);
    OneUiEach(last.snapshot.accounts, before.since, last.now);
    forall k | 0 <= k < |last.snapshot.accounts|
      ensures AccountsUi(last.snapshot.accounts, before.since, last.now)[k].connectionStalled <==>
              last.snapshot.accounts[k].state == Connecting
              && RunIsOld(h, last.snapshot.accounts[k].id, last.now)
    {
      StalledIffRunIsOld(h, k);
    }
  }

  lemma OneUiEach(accounts: seq<Account>, tracking: map<nat, int>, now: int)
    ensures |AccountsUi(accounts, tracking, now)| == |accounts|
  {
  }

  // ----- the gateway object ---------------------------------------------------------------------------------

  class NativeMindChatGateway {
    var state: UiState
    var activeAccountId: nat
    var connectingSince: map<nat, int>
    var inputs: Inputs
    var lastSnapshot: Option<Snapshot>
    var lastInputs: Inputs
    const format: nat -> string

    ghost function Model(): Gateway
      reads this
    {
      Gateway(state, activeAccountId, connectingSince, inputs, lastSnapshot, lastInputs)
    }

    ghost predicate Valid()
      reads this
    {
      Fresh(Model(), format)
    }

    /** The state shown before the first refresh comes from mapping the still empty core. */
    constructor (inputs: Inputs, empty: Snapshot, now: int, format: nat -> string)
      ensures Valid() && lastSnapshot == None && this.inputs == inputs && this.format == format
      ensures (state, connectingSince, activeAccountId) ==
              var m := MapSnapshot(empty, inputs, 0, map[], now, format);
              (m.state, m.connectingSince, m.activeAccountId)
      ensures Pictures(state, empty, format) && state.inputs == inputs
    {
      hide Pictures, MapSnapshot;
      var mapping := MapSnapshotToUiState(empty, inputs, 0, map[], now, format);
      state, activeAccountId, connectingSince := mapping.state, mapping.activeAccountId, mapping.connectingSince;
      this.inputs, lastInputs, lastSnapshot := inputs, inputs, None;
      this.format := format;
    }

    /** Publishes what a full rebuild would publish, whether or not it rebuilds. It rebuilds unless the snapshot, the
        active account and the inputs are those on display and nothing is connecting. */
    method Refresh(snapshot: Snapshot, now: int) returns (rebuilt: bool)
      requires Valid()
      modifies this
      ensures Valid()
      ensures Model() == Publish(old(Model()), snapshot, now, format)
      ensures !rebuilt ==> unchanged(this)
      ensures !rebuilt <==>
              && old(lastSnapshot) == Some(snapshot) && old(activeAccountId) == old(state.activeAccountId)
              && inputs == old(lastInputs)
              && forall i :: 0 <= i < |snapshot.accounts| ==> snapshot.accounts[i].state != Connecting
      ensures Pictures(state, snapshot, format) && state.inputs == inputs == old(inputs)
      ensures IsActive(activeAccountId, old(activeAccountId), snapshot.accounts)
    {
      hide Fresh, MapSnapshot, Pictures, IsActive;
      ghost var g := Model();
      MappingPictures(snapshot, inputs, activeAccountId, connectingSince, now, format);
      if ShouldSkipUiRebuild(snapshot, lastSnapshot, state.activeAccountId, activeAccountId, inputs, lastInputs) {
        SkipIsRebuild(g, Event.Refresh(snapshot, now), now, format);
        return false;
      }
      var mapping := MapSnapshotToUiState(snapshot, inputs, activeAccountId, connectingSince, now, format);
      activeAccountId := mapping.activeAccountId;
      connectingSince := mapping.connectingSince;
      state := mapping.state;
      lastSnapshot := Some(snapshot);
      lastInputs := inputs;
      PublishIsFresh(g, snapshot, now, format);
      rebuilt := true;
    }

    method SelectAccount(account: nat, snapshot: Snapshot, now: int)
      requires Valid()
      modifies this
      ensures Valid()
      ensures Model() ==
              if exists i :: 0 <= i < |old(state.accounts)| && old(state.accounts)[i].id == account
              then Publish(old(Model()).(active := account), snapshot, now, format) else old(Model())
    {
      hide MapSnapshot;
      if exists i :: 0 <= i < |state.accounts| && state.accounts[i].id == account {
        OtherEventsKeepFresh(Model(), Select(account), format);
        activeAccountId := account;
        var rebuilt := Refresh(snapshot, now);
      }
    }
  }
}
