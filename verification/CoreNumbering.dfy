/** What every restored core satisfies, whatever its file held, and what its waiting messages must satisfy besides for
    sends to stay in order: facts about identifiers and allocators only, kept by every operation. */
module CoreNumbering {
  import opened Wrappers
  import opened Text
  import opened Domain
  import opened CoreState
  import opened CoreInvariant
  import opened CoreOutbox
  import opened CoreDelivery
  import opened CoreSnapshot

  /** What an operation adds has a new identifier and a known home; what it keeps stays where it was. */
  ghost predicate PlacesNew(c: Core, d: Core) {
    && c.nextMessage <= d.nextMessage && c.nextConversation <= d.nextConversation
    && (forall m :: m in d.messages ==>
                      if m in c.messages
                      then d.messages[m].id == c.messages[m].id
                           && d.messages[m].conversation == c.messages[m].conversation
                      else d.messages[m].id == m < d.nextMessage && d.messages[m].conversation in d.conversations)
    && (forall v :: v in d.conversations ==> v in c.conversations || v < d.nextConversation)
  }

  lemma RosterChangePlaces(c: Core, d: Core)
    requires RosterOnly(c, d)
    ensures PlacesNew(c, d)
  {
  }

  lemma SamePlacesNew(c: Core)
    ensures PlacesNew(c, c)
  {
  }

  lemma AddMessagePlaces(c: Core, m: Message, now: nat)
    requires m.conversation in c.conversations && m.id == FreshId(c.nextMessage) && m.id !in c.messages
    ensures PlacesNew(c, c.AddMessage(m, now).core)
  {
  }

  lemma SendTextPlaces(c: Core, conversation: nat, sender: string, body: string, inReplyTo: Option<nat>, now: nat)
    requires Numbered(c)
    ensures PlacesNew(c, c.SendText(conversation, sender, body, inReplyTo, now).core)
  {
    hide PlacesNew, Numbered;
    SamePlacesNew(c);
    NextMessageIsNew(c);
    if c.SendText(conversation, sender, body, inReplyTo, now).result.Ok? {
      AddMessagePlaces(c, Message(FreshId(c.nextMessage), conversation, sender, CheckedBody(body).value, Outgoing,
                                  TextMessage, now, Pending, inReplyTo, None), now);
    }
  }

  lemma ReceiveTextPlaces(c: Core, conversation: nat, sender: string, body: string, now: nat)
    requires Numbered(c)
    ensures PlacesNew(c, c.ReceiveText(conversation, sender, body, now).core)
  {
    hide PlacesNew, Numbered;
    SamePlacesNew(c);
    NextMessageIsNew(c);
    if c.ReceiveText(conversation, sender, body, now).result.Ok? {
      AddMessagePlaces(c, Message(FreshId(c.nextMessage), conversation, sender, CheckedBody(body).value, Incoming,
                                  TextMessage, now, Delivered, None, None), now);
    }
  }

  lemma FindOrCreatePlaces(c: Core, account: nat, kind: ConversationKind, address: string, title: string, now: nat)
    ensures PlacesNew(c, c.FindOrCreate(account, kind, address, title, now).core)
  {
    hide Core.HasConversation;
  }

  lemma AfterFindOrCreate(c: Core, d: Core, e: Core)
    requires PlacesNew(c, d) && PlacesNew(d, e) && d.messages == c.messages
    ensures PlacesNew(c, e)
  {
  }

  lemma ReceiveTransportTextPlaces(c: Core, account: nat, kind: ConversationKind, address: string, sender: string,
                                   body: string, now: nat)
    requires Numbered(c)
    ensures PlacesNew(c, c.ReceiveTransportText(account, kind, address, sender, body, now).core)
  {
    hide PlacesNew, ValidJid, CheckedBody, Split, Core.FindOrCreate, Core.ReceiveText;
    SamePlacesNew(c);
    if account in c.accounts && ValidJid(address) && CheckedBody(body).Ok? {
      var title := Split(address, '@')[0];
      var target := c.FindOrCreate(account, kind, address, title, now);
      FindOrCreatePlaces(c, account, kind, address, title, now);
      FindOrCreateKeepsMessages(c, account, kind, address, title, now);
      TargetIsFound(c, account, kind, address, title, now);
      ReceiveTextPlaces(target.core, target.result.value, sender, body, now);
      AfterFindOrCreate(c, target.core, target.core.ReceiveText(target.result.value, sender, body, now).core);
    }
  }

  lemma PutMessagePlaces(c: Core, message: nat, m: Message)
    requires message in c.messages && m.id == c.messages[message].id
    requires m.conversation == c.messages[message].conversation
    ensures PlacesNew(c, c.PutMessage(message, m))
  {
  }

  lemma SetDeliveryStatePlaces(c: Core, message: nat, delivery: DeliveryState)
    ensures PlacesNew(c, c.SetDeliveryState(message, delivery).core)
  {
    hide PlacesNew, Core.PutMessage;
    SamePlacesNew(c);
    if message in c.messages {
      PutMessagePlaces(c, message, c.messages[message].(delivery := delivery));
    }
  }

  lemma AttachPlaces(c: Core, message: nat, kind: MessageKind, attachment: Attachment)
    ensures PlacesNew(c, c.Attach(message, kind, attachment).core)
  {
    hide PlacesNew, Core.PutMessage, Core.CapabilityError;
    SamePlacesNew(c);
    if message in c.messages {
      PutMessagePlaces(c, message, c.messages[message].(kind := kind, attachment := Some(attachment)));
    }
  }

  lemma RemovalPlaces(c: Core, d: Core)
    requires d.nextMessage == c.nextMessage && d.nextConversation == c.nextConversation
    requires forall m :: m in d.messages ==> m in c.messages && d.messages[m] == c.messages[m]
    requires forall v :: v in d.conversations ==> v in c.conversations
    ensures PlacesNew(c, d)
  {
  }

  lemma MarkConversationReadPlaces(c: Core, conversation: nat)
    ensures PlacesNew(c, c.MarkConversationRead(conversation).core)
  {
    hide PlacesNew;
    RemovalPlaces(c, c.MarkConversationRead(conversation).core);
  }

  lemma AddReactionPlaces(c: Core, message: nat, actor: string, emoji: string)
    ensures PlacesNew(c, c.AddReaction(message, actor, emoji).core)
  {
    hide PlacesNew, Core.CapabilityError, Trim;
    RemovalPlaces(c, c.AddReaction(message, actor, emoji).core);
  }

  lemma DeleteConversationPlaces(c: Core, conversation: nat)
    ensures PlacesNew(c, c.DeleteConversation(conversation).core)
  {
    hide PlacesNew;
    RemovalPlaces(c, c.DeleteConversation(conversation).core);
  }

  lemma DeleteAccountPlaces(c: Core, account: nat)
    ensures PlacesNew(c, c.DeleteAccount(account).core)
  {
    hide PlacesNew;
    RemovalPlaces(c, c.DeleteAccount(account).core);
  }

  lemma TransportEventPlaces(c: Core, e: TransportEvent)
    requires Numbered(c)
    ensures PlacesNew(c, c.ApplyTransportEvent(e).core)
  {
    hide PlacesNew, RosterOnly, Numbered, Core.ReceiveTransportText, Core.SetDeliveryState;
    match e
    case DeliveryUpdated(account, sender, message, delivery) =>
      SamePlacesNew(c);
      SetDeliveryStatePlaces(c, message, delivery);
    case IncomingText(account, kind, address, sender, body, receivedAt) =>
      ReceiveTransportTextPlaces(c, account, kind, address, sender, body, receivedAt);
    case _ =>
      RosterEventIsRosterOnly(c, e);
      RosterChangePlaces(c, c.ApplyTransportEvent(e).core);
  }

  lemma OpPlaces(c: Core, op: Op)
    requires Numbered(c)
    ensures PlacesNew(c, Perform(c, op).core)
  {
    hide PlacesNew, RosterOnly, Numbered, Core.ApplyTransportEvent, Core.SendText, Core.ReceiveText, Core.Attach;
    hide ValidJid, Trim, Core.FindOrCreate, Core.CapabilityError, Core.DeleteConversation, Core.DeleteAccount;
    hide Core.SetDeliveryState, Core.MarkConversationRead, Core.AddReaction;
    SamePlacesNew(c);
    match op
    case OpTransportEvent(event) => TransportEventPlaces(c, event);
    case OpSendText(conversation, sender, body, inReplyTo, now) =>
      SendTextPlaces(c, conversation, sender, body, inReplyTo, now);
    case OpReceiveText(conversation, sender, body, now) => ReceiveTextPlaces(c, conversation, sender, body, now);
    case OpAttach(message, kind, attachment) => AttachPlaces(c, message, kind, attachment);
    case OpSetDeliveryState(message, delivery) => SetDeliveryStatePlaces(c, message, delivery);
    case OpOpenConversation(account, kind, address, title, now) =>
      FindOrCreatePlaces(c, account, kind, address, title, now);
    case OpMarkConversationRead(conversation) => MarkConversationReadPlaces(c, conversation);
    case OpAddReaction(message, actor, emoji) => AddReactionPlaces(c, message, actor, emoji);
    case OpDeleteConversation(conversation) => DeleteConversationPlaces(c, conversation);
    case OpDeleteAccount(account) => DeleteAccountPlaces(c, account);
    case _ =>
      RosterOpIsRosterOnly(c, op);
      RosterChangePlaces(c, Perform(c, op).core);
  }

  lemma PlacesNewKeepsNumbered(c: Core, d: Core)
    requires Numbered(c) && PlacesNew(c, d)
    ensures Numbered(d)
  {
  }

  /** Messages stay stored under their own identifiers, below the allocator, from any state in which they are. */
  lemma OpKeepsNumbered(c: Core, op: Op)
    requires Numbered(c)
    ensures Numbered(Perform(c, op).core)
  {
    hide Perform, Numbered, PlacesNew;
    OpPlaces(c, op);
    PlacesNewKeepsNumbered(c, Perform(c, op).core);
  }

  lemma {:induction false} RunKeepsNumbered(c: Core, ops: seq<Op>)
    requires Numbered(c)
    ensures Numbered(RunOps(c, ops))
    decreases |ops|
  {
    hide Perform, Numbered;
    if ops != [] {
      OpKeepsNumbered(c, ops[0]);
      RunKeepsNumbered(Perform(c, ops[0]).core, ops[1..]);
    }
  }

  /** Every file restores to such a core. */
  lemma RestoredIsNumbered(s: Snapshot)
    ensures Numbered(Restore(s))
  {
    hide MaxKey, Collect;
    RestoreIsBelowAllocators(s);
    RestoreIsKeyed(s);
    forall m | m in Restore(s).messages ensures Restore(s).messages[m].id == m {
      assert MessageKey(Restore(s).messages[m]) == m;
    }
  }

  // ----- moored --------------------------------------------------------------------------------------------

  /** No waiting message refers to a conversation still to be opened, which it would then join out of turn. */
  ghost predicate Moored(c: Core) {
    && Numbered(c)
    && (forall v :: v in c.conversations ==> v < c.nextConversation)
    && (forall m :: m in c.messages && Queued(c.messages[m]) ==> c.messages[m].conversation < c.nextConversation)
  }

  lemma MooredIsNumbered(c: Core)
    requires Moored(c)
    ensures Numbered(c)
  {
  }

  lemma InvIsMoored(c: Core)
    requires Inv(c)
    ensures Moored(c)
  {
    hide Unambiguous, UnreadBounded, Numbered;
    PlacedIsNumbered(c);
    forall v | v in c.conversations ensures v < c.nextConversation { assert GoodConversation(c, v); }
    forall m | m in c.messages ensures c.messages[m].conversation < c.nextConversation {
      assert GoodMessage(c, m);
      assert GoodConversation(c, c.messages[m].conversation);
    }
  }

  /** A message that is there before and after waits only if it waited before. */
  lemma QueuedShrinks(c: Core, d: Core, m: nat)
    requires Succeeds(c, d) && Advances(c, d) && m in d.messages && Queued(d.messages[m]) && m < c.nextMessage
    ensures m in c.messages && Queued(c.messages[m]) && c.messages[m].conversation == d.messages[m].conversation
  {
    assert RankOf(c, m) <= RankOf(d, m);
  }

  lemma StaysMoored(c: Core, d: Core)
    requires Moored(c) && PlacesNew(c, d) && Succeeds(c, d) && Advances(c, d)
    ensures Moored(d)
  {
    hide Succeeds, Advances;
    forall m | m in d.messages && Queued(d.messages[m]) ensures d.messages[m].conversation < d.nextConversation {
      if m in c.messages {
        QueuedShrinks(c, d, m);
      }
    }
  }

  lemma OpKeepsMoored(c: Core, op: Op)
    requires Moored(c) && !op.OpSetDeliveryState?
    ensures Moored(Perform(c, op).core)
  {
    hide Perform, Numbered, PlacesNew, Moored, Succeeds, Advances;
    MooredIsNumbered(c);
    OpPlaces(c, op);
    OpSucceeds(c, op);
    OpAdvances(c, op);
    StaysMoored(c, Perform(c, op).core);
  }

  lemma {:induction false} RunKeepsMoored(c: Core, ops: seq<Op>)
    requires Moored(c) && (forall i :: 0 <= i < |ops| ==> !ops[i].OpSetDeliveryState?)
    ensures Moored(RunOps(c, ops))
    decreases |ops|
  {
    hide Perform, Moored;
    if ops != [] {
      OpKeepsMoored(c, ops[0]);
      RunKeepsMoored(Perform(c, ops[0]).core, ops[1..]);
    }
  }

  lemma FlushKeepsMoored(c: Core, account: nat, sent: nat, failed: bool)
    requires Moored(c)
    requires var q := Outbox(c, account); sent <= |q| && (failed ==> sent < |q|)
    ensures Moored(RunOps(c, MarkOps(Outbox(c, account), sent, failed)))
  {
    hide Outbox, RunOps, MarkOps, Marked, Numbered, PlacesNew, Moored, Succeeds, Advances;
    var ops := MarkOps(Outbox(c, account), sent, failed);
    var d := RunOps(c, ops);
    MooredIsNumbered(c);
    FlushAdvances(c, account, sent, failed);
    RunSucceeds(c, ops);
    FlushPlaces(c, account, sent, failed);
    StaysMoored(c, d);
  }

  lemma FlushPlaces(c: Core, account: nat, sent: nat, failed: bool)
    requires Numbered(c)
    requires var q := Outbox(c, account); sent <= |q| && (failed ==> sent < |q|)
    ensures PlacesNew(c, RunOps(c, MarkOps(Outbox(c, account), sent, failed)))
  {
    hide Outbox, RunOps, MarkOps, Listed;
    OutboxIsQueued(c, account);
    OutboxAscends(c, account);
    FlushEffect(c, Outbox(c, account), sent, failed);
  }

  /** The condition on a file: the messages it keeps waiting are in conversations no higher than the highest it
      lists. */
  ghost predicate MooredFile(s: Snapshot) {
    forall m :: Kept(s.messages, MessageKey, m) && Queued(m) ==>
                  m.conversation <= MaxKey(s.conversations, ConversationKey)
  }

  lemma RestoredIsMooredIff(s: Snapshot)
    ensures Moored(Restore(s)) <==> MooredFile(s)
  {
    hide MaxKey, Collect, Kept, Numbered;
    var c := Restore(s);
    RestoredIsNumbered(s);
    RestoreIsBelowAllocators(s);
    forall m | Moored(c) && Kept(s.messages, MessageKey, m) && Queued(m)
      ensures m.conversation <= MaxKey(s.conversations, ConversationKey)
    {
      CollectHoldsTheKept(s.messages, MessageKey, m);
      assert c.messages[m.id] == m;
    }
    forall m | MooredFile(s) && m in c.messages && Queued(c.messages[m])
      ensures c.messages[m].conversation < c.nextConversation
    {
      CollectKeepsLast(s.messages, MessageKey, m);
      CollectHoldsTheKept(s.messages, MessageKey, c.messages[m]);
    }
  }
}
