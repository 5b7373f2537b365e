/** What polled events make of an account's connection state, and how that follows the worker that emitted them. */
module CoreConnectivity {
  import opened Wrappers
  import opened Text
  import opened Domain
  import opened CoreState
  import opened CoreInvariant
  import opened CoreDelivery
  import opened Session
  import opened Coordinator
  import W = Worker

  /** The last connectivity event that speaks for `account`. */
  function LastFor(events: seq<TransportEvent>, account: nat): (e: Option<TransportEvent>)
    ensures e.Some? ==> W.IsConnectivity(e.value) && e.value.account == account && e.value in events
  {
    if events == [] then None
    else
      var last := events[|events| - 1];
      if W.IsConnectivity(last) && last.account == account then Some(last) else LastFor(events[..|events| - 1], account)
  }

  datatype Connection = Connection(
    state: ConnectionState, error: Option<string>, disconnectKind: Option<DisconnectKind>)

  function ConnectionOf(c: Core, account: nat): Connection
    requires account in c.accounts
  {
    Connection(c.accounts[account].state, c.accounts[account].error, c.accounts[account].disconnectKind)
  }

  /** What a connectivity event says about its account. */
  function Reported(e: TransportEvent): Connection
    requires W.IsConnectivity(e)
  {
    match e
    case Connected(_, _) => Connection(Online, None, None)
    case Disconnected(_, recoverable, detail, kind) =>
      Connection(if recoverable then Offline else Failed, detail, Some(kind))
  }

  lemma EventSetsConnection(c: Core, e: TransportEvent, account: nat)
    requires account in c.accounts
    ensures var d := c.ApplyTransportEvent(e).core;
            account in d.accounts
            && ConnectionOf(d, account) ==
               if W.IsConnectivity(e) && e.account == account then Reported(e) else ConnectionOf(c, account)
  {
    hide ValidJid, CheckedBody;
    if !W.IsConnectivity(e) && !e.CapabilitiesDiscovered? {
      TalkKeepsAccounts(c, e);
    }
  }

  lemma TalkKeepsAccounts(c: Core, e: TransportEvent)
    requires !W.IsConnectivity(e) && !e.CapabilitiesDiscovered?
    ensures c.ApplyTransportEvent(e).core.accounts == c.accounts
  {
    hide ValidJid, CheckedBody, Core.ReceiveTransportText, Core.ReceiptApplies;
    if e.IncomingText? {
      TextKeepsAccounts(c, e.account, e.conversationKind, e.address, e.sender, e.body, e.receivedAt);
    }
  }

  lemma TextKeepsAccounts(c: Core, account: nat, kind: ConversationKind, address: string, sender: string, body: string,
                          now: nat)
    ensures c.ReceiveTransportText(account, kind, address, sender, body, now).core.accounts == c.accounts
  {
    hide ValidJid, CheckedBody, Split, Core.FindOrCreate, Core.ReceiveText;
    if account in c.accounts && ValidJid(address) && CheckedBody(body).Ok? {
      var title := Split(address, '@')[0];
      var target := c.FindOrCreate(account, kind, address, title, now);
      FindOrCreateKeepsAccounts(c, account, kind, address, title, now);
      TargetIsFound(c, account, kind, address, title, now);
      ReceiveTextKeepsAccounts(target.core, target.result.value, sender, body, now);
    }
  }

  lemma FindOrCreateKeepsAccounts(c: Core, account: nat, kind: ConversationKind, address: string, title: string,
                                  now: nat)
    ensures c.FindOrCreate(account, kind, address, title, now).core.accounts == c.accounts
  {
    hide Core.HasConversation;
  }

  lemma ReceiveTextKeepsAccounts(c: Core, conversation: nat, sender: string, body: string, now: nat)
    ensures c.ReceiveText(conversation, sender, body, now).core.accounts == c.accounts
  {
    hide CheckedBody;
  }

  /** Polling leaves every account as its last connectivity event reported it, whatever else was queued, malformed or
      about other accounts. */
  lemma {:induction false} LastReportWins(c: Core, events: seq<TransportEvent>, account: nat)
    requires account in c.accounts
    ensures var d := RunOps(c, EventOps(events));
            account in d.accounts
            && ConnectionOf(d, account) == match LastFor(events, account)
                                           case None => ConnectionOf(c, account)
                                           case Some(e) => Reported(e)
  {
    hide Core.ApplyTransportEvent, ConnectionOf, Reported;
    if events != [] {
      var front, last := events[..|events| - 1], events[|events| - 1];
      LastReportWins(c, front, account);
      assert events == front + [last];
      EventOpsAppend(front, [last]);
      assert EventOps([last]) == [OpTransportEvent(last)] by {
        assert [last][1..] == [];
      }
      RunOpsAppend(c, EventOps(front), [OpTransportEvent(last)]);
      var d := RunOps(c, EventOps(front));
      RunOne(d, OpTransportEvent(last));
      EventSetsConnection(d, last, account);
    }
  }

  /** The events of a queue that speak for one account, in order. */
  function About(events: seq<TransportEvent>, account: nat): seq<TransportEvent> {
    if events == [] then []
    else
      var last := events[|events| - 1];
      About(events[..|events| - 1], account) + if last.account == account then [last] else []
  }

  lemma {:induction false} LastForIsAbout(events: seq<TransportEvent>, account: nat)
    ensures LastFor(events, account) == LastFor(About(events, account), account)
  {
    if events != [] {
      var front, last := events[..|events| - 1], events[|events| - 1];
      LastForIsAbout(front, account);
      if last.account == account {
        assert About(events, account)[..|About(events, account)| - 1] == About(front, account);
      } else {
        assert About(events, account) == About(front, account);
      }
    }
  }

  lemma {:induction false} OwnLogReports(before: seq<TransportEvent>, log: seq<TransportEvent>, account: nat)
    requires W.OwnEvents(log, account)
    ensures match W.LastConnectivity(log)
            case None => LastFor(before + log, account) == LastFor(before, account)
            case Some(connected) =>
              LastFor(before + log, account).Some? && W.IsConnectivity(LastFor(before + log, account).value)
              && (LastFor(before + log, account).value.Connected? <==> connected)
  {
    if log == [] {
      assert before + log == before;
    } else {
      assert (before + log)[..|before + log| - 1] == before + log[..|log| - 1];
      OwnLogReports(before, log[..|log| - 1], account);
    }
  }

  /** Whatever else the shared queue held, for other accounts or left behind for this one by `earlier` workers: once
      everything a running worker emitted has been polled, its account is Online exactly when the worker's session is
      live; a worker that has not reported connectivity yet has changed nothing. */
  lemma AccountFollowsItsWorker(c: Core, w: W.Worker, events: seq<TransportEvent>, earlier: seq<TransportEvent>)
    requires W.Coherent(w) && w.exit.None? && w.account in c.accounts
    requires About(events, w.account) == earlier + w.log
    ensures var d := RunOps(c, EventOps(events));
            && w.account in d.accounts
            && (W.LastConnectivity(w.log).Some? ==> (d.accounts[w.account].state == Online <==> w.live))
            && (W.LastConnectivity(w.log).None? ==>
                  !w.live && ConnectionOf(d, w.account) == match LastFor(earlier, w.account)
                                                           case None => ConnectionOf(c, w.account)
                                                           case Some(e) => Reported(e))
  {
    hide RunOps, EventOps, About;
    LastReportWins(c, events, w.account);
    LastForIsAbout(events, w.account);
    OwnLogReports(earlier, w.log, w.account);
  }

  /** And once a worker that failed, lost its stream or went stale has been polled, its account shows why: Offline or
      Failed, with a disconnect kind. */
  lemma ExitIsVisible(c: Core, w: W.Worker, events: seq<TransportEvent>, earlier: seq<TransportEvent>)
    requires W.Coherent(w) && w.account in c.accounts
    requires w.exit.Some? && w.exit.value != W.ByCommand && w.exit.value != W.ChannelClosed
    requires About(events, w.account) == earlier + w.log
    ensures var d := RunOps(c, EventOps(events));
            && w.account in d.accounts
            && (d.accounts[w.account].state == Offline || d.accounts[w.account].state == Failed)
            && d.accounts[w.account].disconnectKind.Some?
  {
    hide RunOps, EventOps, About;
    LastReportWins(c, events, w.account);
    LastForIsAbout(events, w.account);
    OwnLogReports(earlier, w.log, w.account);
  }
}
