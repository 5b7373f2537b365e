/** The coordinator that drives a core and a transport together, behind the handle's guards. Each method is verified
    to be one command of `Session`, so the theorems about runs hold of these objects. */
module Coordinator {
  import opened Wrappers
  import opened Domain
  import opened CoreState
  import opened CoreInvariant
  import opened CoreOutbox
  import opened CoreDelivery
  import opened CoreLookup
  import opened CoreNumbering
  import opened CoreSnapshot
  import opened Session
  import opened SessionEffects
  import opened DomainCore

  const MAX_TRANSPORT_EVENTS_PER_POLL: nat := 128
  const FLUSH_SEND_TIMEOUT_MS: nat := 4000

  datatype CallError = CoreFailed(error: CoreError) | TransportFailed | NotEmpty

  /** The worker bookkeeping of the transport. What a worker answers is a parameter; what is kept is not. */
  class TokioXmppTransport {
    var workers: set<nat>
    var queue: seq<TransportEvent>
    var wire: seq<OutgoingMessage>

    constructor ()
      ensures workers == {} && queue == [] && wire == []
    {
      workers, queue, wire := {}, [], [];
    }

    /** Refuses an account that has a worker; otherwise a worker starts or does not. */
    method Connect(account: nat, starts: bool) returns (ok: bool)
      modifies this`workers
      ensures ok <==> account !in old(workers) && starts
      ensures workers == if ok then old(workers) + {account} else old(workers)
    {
      if account in workers { return false; }
      if starts { workers := workers + {account}; }
      ok := starts;
    }

    /** The worker is released whether or not it confirms in time. */
    method Disconnect(account: nat, confirms: bool) returns (ok: bool)
      modifies this`workers
      ensures ok <==> account in old(workers) && confirms
      ensures workers == old(workers) - {account}
    {
      if account !in workers { return false; }
      workers := workers - {account};
      ok := confirms;
    }

    method Send(message: OutgoingMessage, accepted: bool) returns (ok: bool)
      modifies this`wire
      ensures ok <==> message.account in workers && accepted
      ensures wire == if ok then old(wire) + [message] else old(wire)
    {
      if message.account !in workers { return false; }
      if accepted { wire := wire + [message]; }
      ok := accepted;
    }

    /** A polled disconnect also retires the worker of its account. */
    method NextEvent() returns (event: Option<TransportEvent>)
      modifies this`queue, this`workers
      ensures old(queue) == [] ==> event == None && queue == [] && workers == old(workers)
      ensures old(queue) != [] ==> event == Some(old(queue)[0]) && queue == old(queue)[1..]
                                   && workers == WorkersAfter(old(workers), old(queue)[..1])
    {
      if queue == [] { return None; }
      event := Some(queue[0]);
      queue := queue[1..];
      if event.value.Disconnected? { workers := workers - {event.value.account}; }
    }
  }

  // ----- polls compose --------------------------------------------------------------------------

  lemma {:induction false} EventOpsAppend(events: seq<TransportEvent>, more: seq<TransportEvent>)
    ensures EventOps(events + more) == EventOps(events) + EventOps(more)
  {
    if events == [] {
      assert events + more == more;
    } else {
      assert (events + more)[1..] == events[1..] + more;
      EventOpsAppend(events[1..], more);
    }
  }

  lemma {:induction false} WorkersAfterAppend(workers: set<nat>, polled: seq<TransportEvent>, more: seq<TransportEvent>)
    ensures WorkersAfter(workers, polled + more) == WorkersAfter(WorkersAfter(workers, polled), more)
  {
    if polled == [] {
      assert polled + more == more;
    } else {
      assert (polled + more)[1..] == polled[1..] + more;
      WorkersAfterAppend(if polled[0].Disconnected? then workers - {polled[0].account} else workers, polled[1..], more);
    }
  }

  /** Polling some events and then some more is polling them all at once. */
  lemma PollsCompose(s: Session, first: nat, second: nat)
    requires first + second <= |s.queue|
    ensures Exec(Exec(s, PollTransport(first)), PollTransport(second)) == Exec(s, PollTransport(first + second))
  {
    hide RunOps, Exec, Enabled, WorkersAfter, EventOps;
    PollExec(s, first);
    PollExec(s, first + second);
    var t := Exec(s, PollTransport(first));
    PollExec(t, second);
    var polled, more := s.queue[..first], s.queue[first..first + second];
    assert s.queue[..first + second] == polled + more && t.queue[..second] == more;
    assert t.queue[second..] == s.queue[first + second..];
    EventOpsAppend(polled, more);
    RunOpsAppend(s.core, EventOps(polled), EventOps(more));
    WorkersAfterAppend(s.workers, polled, more);
  }

  lemma PollNone(s: Session)
    ensures Exec(s, PollTransport(0)) == s
  {
    assert s.queue[..0] == [] && s.queue[0..] == s.queue;
  }

  lemma PollOne(s: Session, core: Core, workers: set<nat>)
    requires s.queue != []
    requires core == s.core.ApplyTransportEvent(s.queue[0]).core
    requires workers == WorkersAfter(s.workers, s.queue[..1])
    ensures Exec(s, PollTransport(1)) == s.(core := core, workers := workers, queue := s.queue[1..])
  {
    hide Core.ApplyTransportEvent;
    assert s.queue[..1][1..] == [] && s.queue[..1][0] == s.queue[0];
    assert EventOps(s.queue[..1]) == [OpTransportEvent(s.queue[0])];
    RunOne(s.core, OpTransportEvent(s.queue[0]));
  }

  // ----- flushes grow one mark at a time ----------------------------------------------------------

  lemma {:induction false} MarkOpsExtend(batch: seq<OutgoingMessage>, sent: nat)
    requires sent < |batch|
    ensures MarkOps(batch, sent + 1, false) ==
            MarkOps(batch, sent, false) + [OpSetDeliveryState(batch[sent].message, Sent)]
    ensures MarkOps(batch, sent, true) ==
            MarkOps(batch, sent, false) + [OpSetDeliveryState(batch[sent].message, SendFailed)]
    decreases sent
  {
    if sent > 0 {
      MarkOpsExtend(batch[1..], sent - 1);
    }
  }

  /** One more message of a flush marked, on top of those already sent. */
  lemma FlushExtends(c: Core, d: Core, batch: seq<OutgoingMessage>, sent: nat, failed: bool)
    requires sent < |batch| && batch[sent].message in c.messages
    requires d == RunOps(c, MarkOps(batch, sent, false)) && batch[sent].message in d.messages
    ensures d.SetDeliveryState(batch[sent].message, if failed then SendFailed else Sent).core ==
            RunOps(c, MarkOps(batch, if failed then sent else sent + 1, failed))
  {
    hide RunOps, MarkOps;
    var op := OpSetDeliveryState(batch[sent].message, if failed then SendFailed else Sent);
    MarkOpsExtend(batch, sent);
    RunOpsAppend(c, MarkOps(batch, sent, false), [op]);
    RunOne(d, op);
  }

  /** The messages of the outbox stay in the core while they are being sent. */
  lemma FlushKeepsMessages(c: Core, account: nat, sent: nat)
    requires Numbered(c) && sent <= |Outbox(c, account)|
    ensures RunOps(c, MarkOps(Outbox(c, account), sent, false)).messages.Keys == c.messages.Keys
    ensures forall i :: 0 <= i < |Outbox(c, account)| ==> Outbox(c, account)[i].message in c.messages
  {
    hide Outbox, RunOps, MarkOps, Marked;
    OutboxIsQueued(c, account);
    OutboxAscends(c, account);
    FlushEffect(c, Outbox(c, account), sent, false);
  }

  lemma OutboxEnvelopeIsOwn(c: Core, account: nat, i: nat)
    requires i < |Outbox(c, account)|
    ensures Outbox(c, account)[i].account == account
  {
    hide Outbox;
    OutboxIsQueued(c, account);
  }

  class TransportCoordinator {
    var core: MindChatCore
    const transport: TokioXmppTransport

    /** All the coordinator needs of its core, and what it finds whatever file was loaded. A core that also satisfies
        the invariant, `core.Valid()`, keeps doing so. */
    ghost predicate Valid()
      reads this, core
    {
      Numbered(core.Model())
    }

    ghost function State(): Session
      reads this, core, transport
    {
      Session(core.Model(), transport.workers, transport.queue, transport.wire)
    }

    constructor ()
      ensures Valid() && core.Valid() && State() == EmptySession
      ensures fresh(core) && fresh(transport)
    {
      core := new MindChatCore.Default();
      transport := new TokioXmppTransport();
    }

    method ConnectWithProxy(account: nat, starts: bool) returns (r: Result<(), CallError>)
      requires Valid()
      modifies core, transport`workers
      ensures Valid() && (old(core.Valid()) ==> core.Valid())
      ensures r.Ok? <==> account in old(core.accounts) && account !in old(transport.workers) && starts
      ensures Enabled(old(State()), ConnectAccount(account, r.Ok?))
      ensures State() == Exec(old(State()), ConnectAccount(account, r.Ok?))
      ensures r == Err(CoreFailed(UnknownAccount(account))) <==> account !in old(core.accounts)
      ensures account in old(core.accounts) ==>
                core.accounts == old(core.accounts)[account := old(core.accounts)[account].(
                                                      state := if r.Ok? then Connecting else Failed, error := None,
                                                      disconnectKind := None)]
    {
      hide Inv, Numbered, Core.SetConnectionState;
      ghost var c, s := core.Model(), State();
      OpKeepsNumbered(c, OpSetConnectionState(account, Connecting));
      if account !in core.accounts { return Err(CoreFailed(UnknownAccount(account))); }
      var connecting := core.SetConnectionState(account, Connecting);
      ghost var d := core.Model();
      RunOne(c, OpSetConnectionState(account, Connecting));
      var ok := transport.Connect(account, starts);
      if !ok {
        var failed := core.SetConnectionState(account, Failed);
        OpKeepsNumbered(d, OpSetConnectionState(account, Failed));
        RunOne(d, OpSetConnectionState(account, Failed));
        RunOpsAppend(c, [OpSetConnectionState(account, Connecting)], [OpSetConnectionState(account, Failed)]);
        ConnectSetsTheAccount(s, account, false);
        return Err(TransportFailed);
      }
      ConnectSetsTheAccount(s, account, true);
      r := Ok(());
    }

    method Disconnect(account: nat, confirms: bool) returns (r: Result<(), CallError>)
      requires Valid()
      modifies core, transport`workers
      ensures Valid() && (old(core.Valid()) ==> core.Valid())
      ensures r.Ok? <==> account in old(transport.workers) && confirms
      ensures Enabled(old(State()), DisconnectAccount(account, r.Ok?))
      ensures State() == Exec(old(State()), DisconnectAccount(account, r.Ok?))
    {
      hide Inv, Numbered, Core.ApplyTransportEvent;
      ghost var c := core.Model();
      var event := Disconnected(account, true, None, Cancelled);
      OpKeepsNumbered(c, OpTransportEvent(event));
      var ok := transport.Disconnect(account, confirms);
      if !ok { return Err(TransportFailed); }
      TransportEventErrors(c, event);
      RunOne(c, OpTransportEvent(event));
      var applied := core.ApplyTransportEvent(event);
      assert applied.Ok?;
      r := Ok(());
    }

    /** Hands one message of a flush to the worker and marks it by the answer. */
    method SendNext(ghost c: Core, account: nat, batch: seq<OutgoingMessage>, sent: nat, accepted: bool)
      returns (ok: bool)
      requires Valid() && Numbered(c) && batch == Outbox(c, account) && sent < |batch|
      requires core.Model() == RunOps(c, MarkOps(batch, sent, false))
      modifies core, transport`wire
      ensures Valid() && (old(core.Valid()) ==> core.Valid())
      ensures ok <==> account in transport.workers && accepted
      ensures transport.wire == if ok then old(transport.wire) + [batch[sent]] else old(transport.wire)
      ensures core.Model() == RunOps(c, MarkOps(batch, if ok then sent + 1 else sent, !ok))
    {
      hide Inv, Numbered, Outbox, RunOps, MarkOps, Core.SetDeliveryState;
      RunKeepsNumbered(c, MarkOps(batch, if accepted && account in transport.workers then sent + 1 else sent,
                                  !(accepted && account in transport.workers)));
      FlushKeepsMessages(c, account, sent);
      OutboxEnvelopeIsOwn(c, account, sent);
      ok := transport.Send(batch[sent], accepted);
      FlushExtends(c, core.Model(), batch, sent, !ok);
      MarkSucceeds(core.Model(), batch[sent].message, if ok then Sent else SendFailed);
      var marked := core.SetDeliveryState(batch[sent].message, if ok then Sent else SendFailed);
    }

    /** Sends what waits for an online account: at most 16 messages, in identifier order, until one is refused or
        the time budget is spent. `accepts(k)` is the answer to the k-th send, and `elapsed(k)` the time passed
        before it. */
    method FlushOutbox(account: nat, accepts: nat -> bool, elapsed: nat -> nat) returns (r: Result<nat, CallError>)
      requires Valid()
      modifies core, transport`wire
      ensures Valid() && (old(core.Valid()) ==> core.Valid())
      ensures account !in old(core.accounts) ==> r == Err(CoreFailed(UnknownAccount(account)))
      ensures account in old(core.accounts) && old(core.accounts)[account].state != Online ==> r == Ok(0)
      ensures account !in old(core.accounts) || old(core.accounts)[account].state != Online ==> State() == old(State())
      ensures account in old(core.accounts) && old(core.accounts)[account].state == Online ==>
                var sent := |transport.wire| - |old(transport.wire)|;
                && sent >= 0
                && Enabled(old(State()), Command.FlushOutbox(account, sent, r.Err?))
                && State() == Exec(old(State()), Command.FlushOutbox(account, sent, r.Err?))
                && (r.Ok? ==> r.value == sent)
                && var batch := |Outbox(old(core.Model()), account)|;
                   && (forall k :: 0 <= k < sent ==> accepts(k) && elapsed(k) < 4000)
                   && (r.Err? ==> elapsed(sent) < 4000
                                  && (account !in transport.workers || !accepts(sent)))
                   && (r.Ok? ==> sent == Least(batch, 16) || elapsed(sent) >= 4000)
    {
      hide Inv, Numbered, Outbox, RunOps, MarkOps, Core.SetDeliveryState, Core.Waiting, Core.Envelope, Exec, Enabled;
      ghost var c, s := core.Model(), State();
      if account !in core.accounts { return Err(CoreFailed(UnknownAccount(account))); }
      if core.accounts[account].state != Online { return Ok(0); }
      var pending := core.PendingOutgoingMessages(account);
      var batch := pending.value;
      var limit := if |batch| < FLUSH_OUTBOX_MAX_BATCH then |batch| else FLUSH_OUTBOX_MAX_BATCH;
      FlushNothing(c, batch);
      var sent := 0;
      while sent < limit
        invariant 0 <= sent <= limit
        invariant core == old(core) && Valid() && (old(core.Valid()) ==> core.Valid())
        invariant core.Model() == RunOps(c, MarkOps(batch, sent, false))
        invariant transport.wire == old(transport.wire) + batch[..sent]
        invariant forall k :: 0 <= k < sent ==> accepts(k) && elapsed(k) < FLUSH_SEND_TIMEOUT_MS
      {
        if elapsed(sent) >= FLUSH_SEND_TIMEOUT_MS { break; }
        var ok := SendNext(c, account, batch, sent, accepts(sent));
        if !ok {
          FlushIsASessionStep(s, account, sent, true);
          return Err(TransportFailed);
        }
        assert batch[..sent + 1] == batch[..sent] + [batch[sent]];
        sent := sent + 1;
      }
      FlushIsASessionStep(s, account, sent, false);
      r := Ok(sent);
    }

    /** Applies one queued event. An event that fails to apply is consumed all the same. */
    method PollNextEvent() returns (r: Result<bool, CallError>)
      requires Valid()
      modifies core, transport`queue, transport`workers
      ensures Valid() && (old(core.Valid()) ==> core.Valid())
      ensures old(transport.queue) == [] ==> r == Ok(false) && State() == old(State())
      ensures old(transport.queue) != [] ==>
                && transport.queue == old(transport.queue)[1..]
                && transport.workers == WorkersAfter(old(transport.workers), old(transport.queue)[..1])
                && (exists applied :: Applies(old(core.Model()), core.Model(), applied, old(transport.queue)[0]))
                && (Unambiguous(old(core.Model())) ==> State() == Exec(old(State()), PollTransport(1)))
                && (r == Ok(true) || (r.Err? && r.error.CoreFailed?))
    {
      hide Inv, Numbered, Applies, Unambiguous, Core.ApplyTransportEvent;
      ghost var s := State();
      var event := transport.NextEvent();
      if event.None? { return Ok(false); }
      var applied := core.ApplyTransportEvent(event.value);
      AppliesKeepsNumbered(s.core, core.Model(), applied, event.value);
      if Unambiguous(s.core) { PollOne(s, core.Model(), transport.workers); }
      r := match applied case Ok(_) => Ok(true) case Err(e) => Err(CoreFailed(e));
    }

    /** Consumes the queue in order up to the bound, skipping events that fail to apply. */
    method PollTransportEvents(maxEvents: nat) returns (processed: nat)
      requires Valid()
      modifies core, transport`queue, transport`workers
      ensures Valid() && (old(core.Valid()) ==> core.Valid())
      ensures processed == Least(|old(transport.queue)|, Least(maxEvents, 128))
      ensures transport.queue == old(transport.queue)[processed..]
      ensures transport.workers == WorkersAfter(old(transport.workers), old(transport.queue)[..processed])
      ensures Unambiguous(old(core.Model())) ==>
                Unambiguous(core.Model()) && State() == Exec(old(State()), PollTransport(processed))
    {
      hide Inv, Numbered, Exec, Unambiguous, Applies, WorkersAfter;
      ghost var s := State();
      var limit := Least(maxEvents, MAX_TRANSPORT_EVENTS_PER_POLL);
      processed := 0;
      PollNone(s);
      WorkersAfterNone(s);
      while processed < limit
        invariant processed <= limit && processed <= |s.queue|
        invariant core == old(core) && Valid() && (old(core.Valid()) ==> core.Valid())
        invariant transport.queue == s.queue[processed..] && transport.wire == s.wire
        invariant transport.workers == WorkersAfter(s.workers, s.queue[..processed])
        invariant Unambiguous(s.core) ==>
                    Unambiguous(core.Model()) && State() == Exec(s, PollTransport(processed))
      {
        ghost var before := State();
        var polled := PollNextEvent();
        if polled == Ok(false) { break; }
        WorkersAfterOneMore(s, processed);
        if Unambiguous(s.core) {
          PollKeepsUnambiguous(before, core.Model());
          PollsCompose(s, processed, 1);
        }
        processed := processed + 1;
      }
    }

    /** Releases a tracked worker and removes the account with everything it owns. */
    method DeleteAccount(account: nat, confirms: bool) returns (r: Result<(), CallError>)
      requires Valid()
      modifies core, transport`workers
      ensures Valid() && (old(core.Valid()) ==> core.Valid())
      ensures State() == Exec(old(State()), Command.DeleteAccount(account))
      ensures r.Ok? <==> account in old(core.accounts)
    {
      hide Inv, Numbered;
      ghost var c := core.Model();
      OpKeepsNumbered(c, OpDeleteAccount(account));
      RunOne(c, OpDeleteAccount(account));
      if account !in core.accounts { return Err(CoreFailed(UnknownAccount(account))); }
      if account in transport.workers { var released := transport.Disconnect(account, confirms); }
      var deleted := core.DeleteAccount(account);
      r := match deleted case Ok(_) => Ok(()) case Err(e) => Err(CoreFailed(e));
    }

    /** Replaces the core by what a state file holds, only while the handle has no accounts and no workers. A loader
        hands over a sanitized file, and then this is the load step of a run. */
    method LoadState(file: Option<Snapshot>) returns (r: Result<bool, CallError>)
      modifies this`core
      ensures r == Err(NotEmpty) <==> old(core.accounts) != map[] || transport.workers != {}
      ensures r.Err? || file.None? ==> core == old(core)
      ensures (r.Ok? && file.Some?) || old(Valid()) ==> Valid()
      ensures r.Ok? ==> r.value == file.Some?
      ensures r.Ok? && file.Some? ==> fresh(core) && core.Model() == Restore(file.value)
      ensures r.Ok? && file.Some? && Sanitize(file.value) == file.value ==>
                Enabled(old(State()), Command.LoadState(file.value))
                && State() == Exec(old(State()), Command.LoadState(file.value))
    {
      hide Restore, Sanitize, Numbered;
      if core.accounts != map[] { return Err(NotEmpty); }
      if transport.workers != {} { return Err(NotEmpty); }
      if file.None? { return Ok(false); }
      RestoredIsNumbered(file.value);
      core := new MindChatCore.FromSnapshot(file.value);
      r := Ok(true);
    }
  }

  function Least(a: nat, b: nat): (least: nat)
    ensures least <= a && least <= b && (least == a || least == b)
  {
    if a < b then a else b
  }

  lemma FlushIsASessionStep(s: Session, account: nat, sent: nat, failed: bool)
    requires account in s.core.accounts && s.core.accounts[account].state == Online
    requires var batch := |Outbox(s.core, account)|;
             && sent <= batch && sent <= FLUSH_OUTBOX_MAX_BATCH
             && (failed ==> sent < batch && sent < FLUSH_OUTBOX_MAX_BATCH)
    ensures Enabled(s, Command.FlushOutbox(account, sent, failed))
    ensures var q := Outbox(s.core, account);
            Exec(s, Command.FlushOutbox(account, sent, failed)) ==
            s.(core := RunOps(s.core, MarkOps(q, sent, failed)), wire := s.wire + q[..sent])
  {
    hide Outbox, RunOps, MarkOps;
    FlushExec(s, account, sent, failed);
  }

  lemma FlushNothing(c: Core, batch: seq<OutgoingMessage>)
    ensures RunOps(c, MarkOps(batch, 0, false)) == c
  {
  }

  lemma MarkSucceeds(c: Core, message: nat, delivery: DeliveryState)
    requires message in c.messages
    ensures c.SetDeliveryState(message, delivery).result == Ok(())
  {
  }

  lemma WorkersAfterNone(s: Session)
    ensures WorkersAfter(s.workers, s.queue[..0]) == s.workers
  {
  }

  lemma WorkersAfterOneMore(s: Session, processed: nat)
    requires processed < |s.queue|
    ensures WorkersAfter(s.workers, s.queue[..processed + 1]) ==
            WorkersAfter(WorkersAfter(s.workers, s.queue[..processed]), s.queue[processed..][..1])
  {
    hide WorkersAfter;
    WorkersAfterAppend(s.workers, s.queue[..processed], s.queue[processed..][..1]);
    assert s.queue[..processed + 1] == s.queue[..processed] + s.queue[processed..][..1];
  }

  lemma PollKeepsUnambiguous(s: Session, d: Core)
    requires s.queue != [] && Unambiguous(s.core) && d == Exec(s, PollTransport(1)).core
    ensures Unambiguous(d)
  {
    hide Unambiguous, Core.ApplyTransportEvent, WorkersAfter;
    EventKeepsUnambiguous(s.core, s.queue[0]);
    PollOne(s, s.core.ApplyTransportEvent(s.queue[0]).core, WorkersAfter(s.workers, s.queue[..1]));
  }

  lemma PollLeaves(s: Session, count: nat)
    requires count <= |s.queue|
    ensures Exec(s, PollTransport(count)).queue == s.queue[count..]
  {
  }
}
