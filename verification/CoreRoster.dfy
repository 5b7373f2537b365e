/** What polled events make of one contact of the roster, over any queue. */
module CoreRoster {
  import opened Wrappers
  import opened Text
  import opened Domain
  import opened CoreState
  import opened CoreInvariant
  import opened CoreDelivery
  import opened CoreEffects
  import opened Session
  import opened Coordinator

  predicate Speaks(e: TransportEvent, account: nat, jid: string) {
    (e.RosterContactUpsert? || e.RosterContactRemoved? || e.ContactPresenceUpdated?)
    && e.account == account && e.jid == jid
  }

  /** The last of the events with a given property. */
  function Last(events: seq<TransportEvent>, p: TransportEvent -> bool): (e: Option<TransportEvent>)
    ensures e.Some? ==> p(e.value) && e.value in events
    ensures e.None? ==> forall i :: 0 <= i < |events| ==> !p(events[i])
  {
    if events == [] then None
    else if p(events[|events| - 1]) then Some(events[|events| - 1])
    else Last(events[..|events| - 1], p)
  }

  predicate SameRoster(c: Core, d: Core) {
    c.accounts.Keys == d.accounts.Keys && c.contacts == d.contacts
  }

  lemma OpeningKeepsRoster(c: Core, account: nat, kind: ConversationKind, address: string, title: string, now: nat)
    ensures SameRoster(c, c.FindOrCreate(account, kind, address, title, now).core)
  {
    hide Core.HasConversation;
  }

  lemma ReceivingKeepsRoster(c: Core, conversation: nat, sender: string, body: string, now: nat)
    ensures SameRoster(c, c.ReceiveText(conversation, sender, body, now).core)
  {
    hide CheckedBody;
  }

  lemma TextKeepsRoster(c: Core, account: nat, kind: ConversationKind, address: string, sender: string, body: string,
                        now: nat)
    ensures SameRoster(c, c.ReceiveTransportText(account, kind, address, sender, body, now).core)
  {
    hide ValidJid, CheckedBody, Split, Core.FindOrCreate, Core.ReceiveText;
    if account in c.accounts && ValidJid(address) && CheckedBody(body).Ok? {
      var title := Split(address, '@')[0];
      var target := c.FindOrCreate(account, kind, address, title, now);
      OpeningKeepsRoster(c, account, kind, address, title, now);
      TargetIsFound(c, account, kind, address, title, now);
      ReceivingKeepsRoster(target.core, target.result.value, sender, body, now);
    }
  }

  /** An event that does not speak of a contact leaves it as it is, and no event adds or removes an account. */
  lemma OthersKeepTheContact(c: Core, e: TransportEvent, account: nat, jid: string)
    ensures var d := c.ApplyTransportEvent(e).core;
            && d.accounts.Keys == c.accounts.Keys
            && (!Speaks(e, account, jid) ==>
                  && ((account, jid) in d.contacts <==> (account, jid) in c.contacts)
                  && ((account, jid) in c.contacts ==> d.contacts[(account, jid)] == c.contacts[(account, jid)]))
  {
    hide BareAddress, ShownName, ShownStatus, Core.ReceiveTransportText, Core.SyncRosterContact, Core.RemoveContact;
    hide Core.UpdateContactPresence, ValidJid;
    match e
    case IncomingText(a, kind, address, sender, body, now) => TextKeepsRoster(c, a, kind, address, sender, body, now);
    case DeliveryUpdated(_, _, _, _) => ReceiptsActForThePeerOnly(c, e);
    case RosterContactUpsert(a, j, displayName, subscription) => PushesKeepPresence(c, a, j, displayName, subscription);
    case RosterContactRemoved(a, j) => RemovalRemovesTheContact(c, a, j);
    case ContactPresenceUpdated(a, j, presence, status) => PresenceChangesPresenceOnly(c, a, j, presence, status);
    case _ => ConnectivityEventsSetTheAccount(c, e);
  }

  function IsPush(account: nat, jid: string): TransportEvent -> bool {
    e => Speaks(e, account, jid) && e.RosterContactUpsert?
  }

  function IsPresence(account: nat, jid: string): TransportEvent -> bool {
    e => Speaks(e, account, jid) && e.ContactPresenceUpdated?
  }

  predicate NeverRemoved(events: seq<TransportEvent>, account: nat, jid: string) {
    forall i :: 0 <= i < |events| ==> !(Speaks(events[i], account, jid) && events[i].RosterContactRemoved?)
  }

  /** A known contact follows the queue field by field: name and subscription are those of the last push for it,
      presence and status those of the last presence event for it, and what was never spoken of is as it was. */
  ghost predicate Follows(was: Contact, became: Contact, events: seq<TransportEvent>, account: nat, jid: string) {
    && (became.account, became.jid) == (was.account, was.jid)
    && (match Last(events, IsPush(account, jid))
        case None => became.displayName == was.displayName && became.subscription == was.subscription
        case Some(e) => ShownName(became.displayName, e.displayName, jid) && became.subscription == e.subscription)
    && (match Last(events, IsPresence(account, jid))
        case None => became.presence == was.presence && became.status == was.status
        case Some(e) => became.presence == e.presence && ShownStatus(became.status, e.status))
  }

  lemma FollowsOneMore(c: Core, d: Core, was: Contact, front: seq<TransportEvent>, e: TransportEvent, account: nat,
                       jid: string)
    requires (was.account, was.jid) == (account, jid) && account in c.accounts && (account, jid) in c.contacts
    requires exists local, domain :: BareAddress(jid, local, domain)
    requires Follows(was, c.contacts[(account, jid)], front, account, jid)
    requires NeverRemoved([e], account, jid) && d == c.ApplyTransportEvent(e).core
    ensures (account, jid) in d.contacts && Follows(was, d.contacts[(account, jid)], front + [e], account, jid)
  {
    hide BareAddress, ShownName, ShownStatus, Core.ApplyTransportEvent;
    assert [e][0] == e;
    assert (front + [e])[..|front|] == front && (front + [e])[|front|] == e;
    OthersKeepTheContact(c, e, account, jid);
    if Speaks(e, account, jid) {
      match e
      case RosterContactUpsert(a, j, displayName, subscription) =>
        PushesKeepPresence(c, a, j, displayName, subscription);
      case ContactPresenceUpdated(a, j, presence, status) => PresenceChangesPresenceOnly(c, a, j, presence, status);
    }
  }

  lemma {:induction false} ContactsFollowTheQueue(c: Core, events: seq<TransportEvent>, account: nat, jid: string)
    requires account in c.accounts && (account, jid) in c.contacts && NeverRemoved(events, account, jid)
    requires (c.contacts[(account, jid)].account, c.contacts[(account, jid)].jid) == (account, jid)
    requires exists local, domain :: BareAddress(jid, local, domain)
    ensures var d := RunOps(c, EventOps(events));
            && d.accounts.Keys == c.accounts.Keys && (account, jid) in d.contacts
            && Follows(c.contacts[(account, jid)], d.contacts[(account, jid)], events, account, jid)
  {
    hide BareAddress, Follows, Core.ApplyTransportEvent;
    if events == [] {
      NothingFollows(c.contacts[(account, jid)], account, jid);
    } else {
      var front, e := events[..|events| - 1], events[|events| - 1];
      assert events == front + [e];
      ContactsFollowTheQueue(c, front, account, jid);
      var d := RunOps(c, EventOps(front));
      EventOpsAppend(front, [e]);
      assert EventOps([e]) == [OpTransportEvent(e)] by { assert [e][1..] == []; }
      RunOpsAppend(c, EventOps(front), [OpTransportEvent(e)]);
      RunOne(d, OpTransportEvent(e));
      OthersKeepTheContact(d, e, account, jid);
      FollowsOneMore(d, d.ApplyTransportEvent(e).core, c.contacts[(account, jid)], front, e, account, jid);
    }
  }

  lemma NothingFollows(was: Contact, account: nat, jid: string)
    ensures Follows(was, was, [], account, jid)
  {
  }
}
