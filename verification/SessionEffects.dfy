/** What each command of a run does to the core, the workers, the queue and the wire, and that it does nothing else. */
module SessionEffects {
  import opened Wrappers
  import opened Domain
  import opened CoreState
  import opened CoreInvariant
  import opened CoreOutbox
  import opened CoreDelivery
  import opened CoreSnapshot
  import opened CoreEffects
  import opened Ordering
  import opened Session

  /** Which commands can happen with which outcome. */
  lemma OutcomesPossible(s: Session, account: nat, sent: nat, failed: bool)
    ensures Enabled(s, ConnectAccount(account, true)) <==> account !in s.workers
    ensures Enabled(s, ConnectAccount(account, false)) && Enabled(s, DisconnectAccount(account, false))
    ensures Enabled(s, DisconnectAccount(account, true)) <==> account in s.workers
    ensures Enabled(s, PollTransport(sent)) <==> sent <= |s.queue|
    ensures Enabled(s, Command.FlushOutbox(account, sent, failed)) <==>
            && account in s.core.accounts && s.core.accounts[account].state == Online
            && sent <= |Outbox(s.core, account)| && sent <= 16
            && (failed ==> sent < |Outbox(s.core, account)| && sent < 16)
  {
  }

  lemma LoadsPossible(s: Session, file: Snapshot)
    ensures Enabled(s, LoadState(file)) <==> s.workers == {} && forall a :: a !in s.core.accounts
  {
  }

  /** A connect that is accepted leaves the account connecting, with no failure shown, and with a worker; one that is
      refused leaves it failed, with no reason shown, and its worker as it was. */
  lemma ConnectSetsTheAccount(s: Session, account: nat, accepted: bool)
    requires Enabled(s, ConnectAccount(account, accepted))
    ensures var t := Exec(s, ConnectAccount(account, accepted));
            if account !in s.core.accounts then t == s
            else
              && t == s.(core := t.core, workers := s.workers + if accepted then {account} else {})
              && t.core == s.core.(accounts := t.core.accounts, events := t.core.events)
              && account in t.core.accounts
              && t.core.accounts == s.core.accounts[account := t.core.accounts[account]]
              && t.core.accounts[account] ==
                 s.core.accounts[account].(state := if accepted then Connecting else Failed, error := None,
                                           disconnectKind := None)
              && t.core.events == s.core.events + if accepted then [AccountChanged(account)]
                                                  else [AccountChanged(account), AccountChanged(account)]
  {
    if account in s.core.accounts {
      var first := OpSetConnectionState(account, Connecting);
      var c := Perform(s.core, first).core;
      RunOne(s.core, first);
      if !accepted {
        var second := OpSetConnectionState(account, Failed);
        RunOne(c, second);
        RunOpsAppend(s.core, [first], [second]);
        assert [first] + [second] == OpsOf(s, ConnectAccount(account, accepted));
      }
    }
  }

  /** A disconnect releases the worker either way; confirmed, it leaves the account offline and called off. */
  lemma DisconnectSetsTheAccount(s: Session, account: nat, closed: bool)
    requires Enabled(s, DisconnectAccount(account, closed))
    ensures var t := Exec(s, DisconnectAccount(account, closed));
            && t == s.(core := t.core, workers := s.workers - {account})
            && (!closed || account !in s.core.accounts ==> t.core == s.core)
            && (closed && account in s.core.accounts ==>
                  && OnlyAccount(s.core, t.core, account) && account in t.core.accounts
                  && t.core.accounts[account] ==
                     s.core.accounts[account].(state := Offline, error := None, disconnectKind := Some(Cancelled)))
  {
    if closed {
      RunOne(s.core, OpTransportEvent(Disconnected(account, true, None, Cancelled)));
    }
  }

  /** Deleting a known account releases its worker; an unknown one is left alone. */
  lemma DeletionReleasesTheWorker(s: Session, account: nat)
    ensures Enabled(s, Command.DeleteAccount(account))
    ensures var t := Exec(s, Command.DeleteAccount(account));
            if account in s.core.accounts
            then t == s.(core := s.core.DeleteAccount(account).core, workers := s.workers - {account})
            else t == s
  {
    hide Core.Without;
    RunOne(s.core, OpDeleteAccount(account));
  }

  lemma {:induction false} PolledDisconnectsRetire(workers: set<nat>, polled: seq<TransportEvent>)
    ensures forall a :: a in WorkersAfter(workers, polled) <==>
                        a in workers && forall i :: 0 <= i < |polled| && polled[i].Disconnected? ==>
                                                      polled[i].account != a
  {
    if polled != [] {
      PolledDisconnectsRetire(if polled[0].Disconnected? then workers - {polled[0].account} else workers, polled[1..]);
      assert polled == [polled[0]] + polled[1..];
    }
  }

  /** A poll takes events off the front of the queue, applies them in order, and retires the worker of every account
      that one of them disconnects. */
  lemma PollTakesFromTheFront(s: Session, count: nat)
    requires count < |s.queue|
    ensures var t, u := Exec(s, PollTransport(count)), Exec(s, PollTransport(count + 1));
            && u.core == t.core.ApplyTransportEvent(s.queue[count]).core
            && u.queue == s.queue[count + 1..] && u.wire == s.wire
            && forall a :: a in u.workers <==>
                           a in t.workers && (s.queue[count].Disconnected? ==> s.queue[count].account != a)
    ensures Exec(s, PollTransport(0)) == s
  {
    hide RunOps, Core.ApplyTransportEvent;
    PollExec(s, count);
    PollExec(s, count + 1);
    PollExec(s, 0);
    var polled, event := s.queue[..count], s.queue[count];
    assert s.queue[..count + 1] == polled + [event];
    EventOpsSnoc(polled, event);
    RunNothing(s.core);
    RunOpsAppend(s.core, EventOps(polled), [OpTransportEvent(event)]);
    RunOne(RunOps(s.core, EventOps(polled)), OpTransportEvent(event));
    PolledDisconnectsRetire(s.workers, polled);
    PolledDisconnectsRetire(s.workers, polled + [event]);
    assert s.queue[..0] == [] && s.queue[0..] == s.queue;
  }

  lemma RunNothing(c: Core)
    ensures RunOps(c, []) == c
  {
  }

  lemma {:induction false} EventOpsSnoc(events: seq<TransportEvent>, event: TransportEvent)
    ensures EventOps(events + [event]) == EventOps(events) + [OpTransportEvent(event)]
  {
    if events == [] {
      assert events + [event] == [event] && [event][1..] == [];
    } else {
      assert (events + [event])[1..] == events[1..] + [event];
      EventOpsSnoc(events[1..], event);
    }
  }

  /** What waits for an account: its outgoing messages not yet sent or whose send failed, each put in an envelope that
      carries its conversation, its text and what it answers. */
  lemma WhatWaits(c: Core, account: nat, message: nat)
    ensures c.Waiting(account, message) <==>
            && message in c.messages && c.messages[message].direction == Outgoing
            && c.messages[message].delivery in {Pending, SendFailed}
            && c.messages[message].conversation in c.conversations
            && c.conversations[c.messages[message].conversation].account == account
    ensures c.Waiting(account, message) ==>
              var m, e := c.messages[message], c.Envelope(message);
              var v := c.conversations[m.conversation];
              && e.account == account && e.conversation == m.conversation && e.message == message
              && e.kind == v.kind && e.recipient == v.address && e.body == m.body && e.inReplyTo == m.inReplyTo
  {
  }

  /** The oldest message comes first. */
  lemma OldestFirst(c: Core, account: nat, i: nat, j: nat)
    requires i < j < |Outbox(c, account)|
    ensures Outbox(c, account)[i].message < Outbox(c, account)[j].message
  {
    hide Outbox;
    OutboxAscends(c, account);
    var q := Outbox(c, account);
    assert NatLess(EnvelopeKey(q[i]), EnvelopeKey(q[j]));
  }

  /** What a flush makes of one message: sent if it is among the first, failed if it is the one that was refused. */
  ghost predicate IsMarked(was: Message, became: Message, batch: seq<OutgoingMessage>, sent: nat, failed: bool) {
    && (forall i :: 0 <= i < sent <= |batch| && batch[i].message == was.id ==> became == was.(delivery := Sent))
    && (failed && sent < |batch| && batch[sent].message == was.id ==> became == was.(delivery := SendFailed))
    && (became != was ==> exists i :: 0 <= i < |batch| && batch[i].message == was.id
                                      && (i < sent || (failed && i == sent)))
  }

  lemma MarksAreMarks(m: Message, batch: seq<OutgoingMessage>, sent: nat, failed: bool)
    requires sent <= |batch| && (failed ==> sent < |batch|) && Ascending(batch, EnvelopeKey, NatLess)
    ensures IsMarked(m, Marked(m, batch, sent, failed), batch, sent, failed)
  {
    forall i | 0 <= i < sent && batch[i].message == m.id ensures Listed(batch[..sent], m.id) {
      assert batch[..sent][i].message == m.id;
    }
    if Listed(batch[..sent], m.id) {
      var i :| 0 <= i < sent && batch[..sent][i].message == m.id;
      assert batch[i].message == m.id;
      assert forall j :: i < j < |batch| ==> NatLess(EnvelopeKey(batch[i]), EnvelopeKey(batch[j]));
    }
  }

  /** A flush hands the first waiting messages to the wire in order, marks them sent and the one that was refused
      failed, and touches nothing else. */
  lemma FlushSendsTheFirst(s: Session, account: nat, sent: nat, failed: bool)
    requires Numbered(s.core) && Enabled(s, Command.FlushOutbox(account, sent, failed))
    ensures var t, batch := Exec(s, Command.FlushOutbox(account, sent, failed)), Outbox(s.core, account);
            && t == s.(core := t.core, wire := s.wire + batch[..sent])
            && t.core == s.core.(messages := t.core.messages, events := t.core.events)
            && t.core.messages.Keys == s.core.messages.Keys
            && forall m :: m in s.core.messages ==>
                             IsMarked(s.core.messages[m], t.core.messages[m], batch, sent, failed)
  {
    hide Outbox, RunOps, MarkOps, Marked, IsMarked;
    var batch := Outbox(s.core, account);
    OutboxIsQueued(s.core, account);
    OutboxAscends(s.core, account);
    FlushEffect(s.core, batch, sent, failed);
    forall m | m in s.core.messages
      ensures IsMarked(s.core.messages[m], Marked(s.core.messages[m], batch, sent, failed), batch, sent, failed)
    {
      MarksAreMarks(s.core.messages[m], batch, sent, failed);
    }
  }

  /** The other commands: arrivals join the queue, draining empties the log, a load replaces the core. */
  lemma OtherCommands(s: Session, event: TransportEvent, file: Snapshot)
    ensures Enabled(s, Arrive(event)) && Exec(s, Arrive(event)) == s.(queue := s.queue + [event])
    ensures Enabled(s, Command.DrainEvents)
            && Exec(s, Command.DrainEvents) == s.(core := s.core.(events := []))
    ensures Enabled(s, LoadState(file)) ==>
              Exec(s, LoadState(file)) == s.(core := Restore(Sanitize(file)))
  {
  }
}
