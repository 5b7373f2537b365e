/** Runs of the client: any sequence of handle commands and network arrivals, with the transport's answers chosen
    arbitrarily. The whole-run guarantees of the core are theorems about these sequences. */
module Session {
  import opened Wrappers
  import opened Text
  import opened Domain
  import opened Ordering
  import opened CoreState
  import opened CoreInvariant
  import opened CoreNotify
  import opened CoreOutbox
  import opened CoreDelivery
  import opened CoreEffects
  import opened CoreSnapshot
  import opened CoreLoad
  import opened CoreNumbering

  /** The core, the accounts with a connection worker, the transport's event queue, and the messages for which a
      send has returned success, in order. */
  datatype Session = Session(core: Core, workers: set<nat>, queue: seq<TransportEvent>, wire: seq<OutgoingMessage>)

  const EmptySession := Session(EmptyCore, {}, [], [])

  datatype Command =
    | Local(op: Op)
    | ConnectAccount(account: nat, accepted: bool)
    | DisconnectAccount(account: nat, closed: bool)
    | DeleteAccount(account: nat)
    | FlushOutbox(account: nat, sent: nat, failed: bool)
    | PollTransport(count: nat)
    | DrainEvents
    | Arrive(event: TransportEvent)
    | LoadState(file: Snapshot)

  /** The core mutators the handle exposes directly. */
  predicate IsLocal(op: Op) {
    !op.OpSetDeliveryState? && !op.OpTransportEvent? && !op.OpAttach? && !op.OpDeleteAccount?
  }

  /** A flush stays within its batch; the message it fails on is one of it. */
  ghost predicate FlushFits(c: Core, account: nat, sent: nat, failed: bool) {
    var batch := |Outbox(c, account)|;
    && sent <= batch && sent <= FLUSH_OUTBOX_MAX_BATCH
    && (failed ==> sent < batch && sent < FLUSH_OUTBOX_MAX_BATCH)
  }

  ghost function FlushOps(c: Core, account: nat, sent: nat, failed: bool): seq<Op> {
    if FlushFits(c, account, sent, failed) then MarkOps(Outbox(c, account), sent, failed) else []
  }

  /** Which outcomes of a command are possible: a flush is for an online account and stays within its batch, a
      connect is refused while a worker exists, a load needs a handle without accounts and workers. The file loaded may
      hold anything. */
  ghost predicate Enabled(s: Session, cmd: Command) {
    match cmd
    case Local(op) => IsLocal(op)
    case ConnectAccount(account, accepted) => accepted ==> account !in s.workers
    case DisconnectAccount(account, closed) => closed ==> account in s.workers
    case FlushOutbox(account, sent, failed) =>
      && account in s.core.accounts && s.core.accounts[account].state == Online
      && FlushFits(s.core, account, sent, failed)
    case PollTransport(count) => count <= |s.queue|
    case LoadState(file) => s.core.accounts == map[] && s.workers == {}
    case _ => true
  }

  function EventOps(events: seq<TransportEvent>): (ops: seq<Op>)
    ensures |ops| == |events|
  {
    if events == [] then [] else [OpTransportEvent(events[0])] + EventOps(events[1..])
  }

  /** The core operations a command performs. */
  ghost function OpsOf(s: Session, cmd: Command): seq<Op>
    requires Enabled(s, cmd)
  {
    match cmd
    case Local(op) => [op]
    case ConnectAccount(account, accepted) =>
      if account !in s.core.accounts then []
      else if accepted then [OpSetConnectionState(account, Connecting)]
      else [OpSetConnectionState(account, Connecting), OpSetConnectionState(account, Failed)]
    case DisconnectAccount(account, closed) =>
      if closed then [OpTransportEvent(Disconnected(account, true, None, Cancelled))] else []
    case DeleteAccount(account) => [OpDeleteAccount(account)]
    case FlushOutbox(account, sent, failed) => FlushOps(s.core, account, sent, failed)
    case PollTransport(count) => EventOps(s.queue[..count])
    case _ => []
  }

  ghost function CoreAfter(s: Session, cmd: Command): Core
    requires Enabled(s, cmd)
  {
    match cmd
    case DrainEvents => s.core.(events := [])
    case LoadState(file) => Restore(Sanitize(file))
    case _ => RunOps(s.core, OpsOf(s, cmd))
  }

  /** A polled disconnect retires the worker of its account. */
  function WorkersAfter(workers: set<nat>, polled: seq<TransportEvent>): set<nat> {
    if polled == [] then workers
    else
      WorkersAfter(if polled[0].Disconnected? then workers - {polled[0].account} else workers, polled[1..])
  }

  ghost function Exec(s: Session, cmd: Command): Session
    requires Enabled(s, cmd)
  {
    var t := s.(core := CoreAfter(s, cmd));
    match cmd
    case ConnectAccount(account, accepted) =>
      if accepted && account in s.core.accounts then t.(workers := s.workers + {account}) else t
    case DisconnectAccount(account, closed) => t.(workers := s.workers - {account})
    case DeleteAccount(account) =>
      if account in s.core.accounts then t.(workers := s.workers - {account}) else t
    case FlushOutbox(account, sent, failed) => t.(wire := s.wire + Outbox(s.core, account)[..sent])
    case PollTransport(count) =>
      t.(queue := s.queue[count..], workers := WorkersAfter(s.workers, s.queue[..count]))
    case Arrive(event) => t.(queue := s.queue + [event])
    case _ => t
  }

  ghost predicate IsRun(s: Session, cmds: seq<Command>)
    decreases |cmds|
  {
    cmds != [] ==> Enabled(s, cmds[0]) && IsRun(Exec(s, cmds[0]), cmds[1..])
  }

  ghost function Final(s: Session, cmds: seq<Command>): Session
    requires IsRun(s, cmds)
    decreases |cmds|
  {
    if cmds == [] then s else Final(Exec(s, cmds[0]), cmds[1..])
  }

  /** A poll, spelled out. */
  lemma PollExec(s: Session, count: nat)
    requires count <= |s.queue|
    ensures Enabled(s, PollTransport(count))
    ensures Exec(s, PollTransport(count)) ==
            s.(core := RunOps(s.core, EventOps(s.queue[..count])), queue := s.queue[count..],
               workers := WorkersAfter(s.workers, s.queue[..count]))
  {
    hide RunOps, WorkersAfter, EventOps;
  }

  // ----- the state invariant -------------------------------------------------------------------

  lemma CommandKeepsInv(s: Session, cmd: Command)
    requires Inv(s.core) && Enabled(s, cmd)
    ensures Inv(CoreAfter(s, cmd)) <==> (cmd.LoadState? ==> Sound(cmd.file))
  {
    hide Inv, RunOps, Perform, Restore, Sound;
    if cmd.DrainEvents? {
      DrainKeepsInv(s.core);
    } else if cmd.LoadState? {
      RestoresConsistentlyIffSound(cmd.file);
    } else {
      RunKeepsInv(s.core, OpsOf(s, cmd));
    }
  }

  /** Every file the run loads is free of dangling references, as everything a consistent core saves is. */
  ghost predicate SoundLoads(cmds: seq<Command>) {
    forall i :: 0 <= i < |cmds| && cmds[i].LoadState? ==> Sound(cmds[i].file)
  }

  /** In every run, from the empty session or any consistent one, the state invariant holds at the end. */
  lemma {:induction false} InvariantOfEveryRun(s: Session, cmds: seq<Command>)
    requires Inv(s.core) && IsRun(s, cmds) && SoundLoads(cmds)
    ensures Inv(Final(s, cmds).core)
    decreases |cmds|
  {
    hide Inv, CoreAfter, Sound;
    if cmds != [] {
      CommandKeepsInv(s, cmds[0]);
      InvariantOfEveryRun(Exec(s, cmds[0]), cmds[1..]);
    }
  }

  lemma {:induction false} RunPrefix(s: Session, cmds: seq<Command>, i: nat)
    requires IsRun(s, cmds) && i < |cmds|
    ensures IsRun(s, cmds[..i]) && Enabled(Final(s, cmds[..i]), cmds[i])
    ensures IsRun(s, cmds[..i + 1]) && Final(s, cmds[..i + 1]) == Exec(Final(s, cmds[..i]), cmds[i])
    decreases |cmds|
  {
    hide CoreAfter;
    if i > 0 {
      RunPrefix(Exec(s, cmds[0]), cmds[1..], i - 1);
      assert cmds[..i][1..] == cmds[1..][..i - 1] && cmds[..i + 1][1..] == cmds[1..][..i];
    } else {
      assert cmds[..0] == [] && cmds[..1][1..] == [];
    }
  }

  ghost predicate ConsistentThroughout(s: Session, cmds: seq<Command>)
    requires IsRun(s, cmds)
  {
    forall i :: 0 <= i <= |cmds| ==> IsRun(s, cmds[..i]) && Inv(Final(s, cmds[..i]).core)
  }

  /** A run from the empty session is consistent throughout if and only if every file it loads is sound; no command and
      no arrival can break the core. */
  lemma ReachableCoresAreConsistent(cmds: seq<Command>)
    requires IsRun(EmptySession, cmds)
    ensures ConsistentThroughout(EmptySession, cmds) <==> SoundLoads(cmds)
  {
    hide Inv, IsRun, Final, CoreAfter, Sound, Enabled;
    forall i | 0 <= i <= |cmds| && SoundLoads(cmds)
      ensures IsRun(EmptySession, cmds[..i]) && Inv(Final(EmptySession, cmds[..i]).core)
    {
      if i == |cmds| {
        assert cmds[..i] == cmds;
      } else {
        RunPrefix(EmptySession, cmds, i);
      }
      EmptyCoreInv();
      InvariantOfEveryRun(EmptySession, cmds[..i]);
    }
    if ConsistentThroughout(EmptySession, cmds) {
      forall i | 0 <= i < |cmds| && cmds[i].LoadState? ensures Sound(cmds[i].file) {
        RunPrefix(EmptySession, cmds, i);
        CommandKeepsInv(Final(EmptySession, cmds[..i]), cmds[i]);
      }
    }
  }

  /** A file with a message but no conversation is one that breaks it. */
  lemma AnOrphanBreaksTheCore()
    ensures IsRun(EmptySession, [LoadState(ORPHANED)])
    ensures !ConsistentThroughout(EmptySession, [LoadState(ORPHANED)])
  {
    hide Inv, Sound, CoreAfter, ConsistentThroughout;
    var cmds := [LoadState(ORPHANED)];
    assert cmds[1..] == [];
    OrphansAreUnsound();
    RestoresConsistentlyIffSound(ORPHANED);
    ReachableCoresAreConsistent(cmds);
  }

  // ----- one core lifetime: no load -------------------------------------------------------------

  predicate OneLifetime(cmds: seq<Command>) {
    forall i :: 0 <= i < |cmds| ==> !cmds[i].LoadState?
  }

  lemma CommandSucceeds(s: Session, cmd: Command)
    requires Enabled(s, cmd) && !cmd.LoadState?
    ensures Succeeds(s.core, CoreAfter(s, cmd))
  {
    hide Succeeds, RunOps, Perform;
    if cmd.DrainEvents? {
      DrainSucceeds(s.core);
    } else {
      RunSucceeds(s.core, OpsOf(s, cmd));
    }
  }

  lemma DrainSucceeds(c: Core)
    ensures Succeeds(c, c.(events := []))
  {
  }

  lemma {:induction false} RunAdvances(c: Core, ops: seq<Op>)
    requires Numbered(c) && (forall i :: 0 <= i < |ops| ==> !ops[i].OpSetDeliveryState?)
    ensures Advances(c, RunOps(c, ops))
    decreases |ops|
  {
    hide Numbered, Succeeds, Advances, Perform;
    if ops == [] {
      SameMessagesAdvance(c, c);
    } else {
      var d := Perform(c, ops[0]).core;
      OpAdvances(c, ops[0]);
      OpKeepsNumbered(c, ops[0]);
      OpSucceeds(c, ops[0]);
      RunAdvances(d, ops[1..]);
      RunSucceeds(d, ops[1..]);
      AdvancesTransitive(c, d, RunOps(d, ops[1..]));
    }
  }

  lemma {:induction false} EventOpsAreEvents(events: seq<TransportEvent>)
    ensures forall i :: 0 <= i < |events| ==> EventOps(events)[i] == OpTransportEvent(events[i])
  {
    if events != [] {
      EventOpsAreEvents(events[1..]);
    }
  }

  /** The numbering of messages survives every command, a load of any file included. */
  lemma CommandKeepsNumbered(s: Session, cmd: Command)
    requires Numbered(s.core) && Enabled(s, cmd)
    ensures Numbered(CoreAfter(s, cmd))
  {
    hide Numbered, RunOps, Perform, Restore;
    if cmd.DrainEvents? {
      DrainKeepsNumbered(s.core);
    } else if cmd.LoadState? {
      RestoredIsNumbered(Sanitize(cmd.file));
    } else {
      RunKeepsNumbered(s.core, OpsOf(s, cmd));
    }
  }

  lemma DrainKeepsNumbered(c: Core)
    requires Numbered(c)
    ensures Numbered(c.(events := []))
  {
  }

  /** A command never weakens the delivery state of a message that is there before and after it. */
  lemma CommandAdvances(s: Session, cmd: Command)
    requires Numbered(s.core) && Enabled(s, cmd) && !cmd.LoadState?
    ensures Advances(s.core, CoreAfter(s, cmd))
  {
    hide Numbered, Advances, Perform, RunOps, Outbox;
    if cmd.DrainEvents? {
      SameMessagesAdvance(s.core, s.core.(events := []));
    } else if cmd.FlushOutbox? {
      FlushAdvances(s.core, cmd.account, cmd.sent, cmd.failed);
    } else {
      if cmd.PollTransport? {
        EventOpsAreEvents(s.queue[..cmd.count]);
      }
      RunAdvances(s.core, OpsOf(s, cmd));
    }
  }

  /** Delivery is monotone over whole runs, whatever file the core was loaded from. */
  lemma {:induction false} DeliveryIsMonotone(s: Session, cmds: seq<Command>)
    requires Numbered(s.core) && IsRun(s, cmds) && OneLifetime(cmds)
    ensures Advances(s.core, Final(s, cmds).core)
    ensures Succeeds(s.core, Final(s, cmds).core)
    decreases |cmds|
  {
    hide Numbered, Advances, Succeeds, CoreAfter;
    if cmds == [] {
      SameMessagesAdvance(s.core, s.core);
      SucceedsReflexive(s.core);
    } else {
      var t := Exec(s, cmds[0]);
      CommandAdvances(s, cmds[0]);
      CommandSucceeds(s, cmds[0]);
      CommandKeepsNumbered(s, cmds[0]);
      DeliveryIsMonotone(t, cmds[1..]);
      AdvancesTransitive(s.core, t.core, Final(t, cmds[1..]).core);
      SucceedsTransitive(s.core, t.core, Final(t, cmds[1..]).core);
    }
  }

  // ----- provenance of receipts ------------------------------------------------------------------

  predicate Acknowledged(c: Core, m: nat) {
    && m in c.messages && c.messages[m].direction == Outgoing
    && (c.messages[m].delivery == Delivered || c.messages[m].delivery == Read)
  }

  /** A polled receipt for `m`, sent by the peer of the direct conversation `m` belongs to, on its own account. */
  ghost predicate PeerReceipt(c: Core, e: TransportEvent, m: nat) {
    FromThePeer(c, e) && e.message == m && (e.delivery == Delivered || e.delivery == Read)
  }

  lemma KeptMessagesAcknowledge(c: Core, d: Core, m: nat)
    requires m in d.messages ==> m in c.messages && d.messages[m] == c.messages[m]
    ensures Acknowledged(d, m) ==> Acknowledged(c, m)
  {
  }

  lemma AttachAcknowledges(c: Core, message: nat, kind: MessageKind, attachment: Attachment, m: nat)
    ensures Acknowledged(c.Attach(message, kind, attachment).core, m) ==> Acknowledged(c, m)
  {
  }

  lemma WeakUpdateAcknowledges(c: Core, message: nat, delivery: DeliveryState, m: nat)
    requires DeliveryRank(delivery) < DeliveryRank(Delivered)
    ensures Acknowledged(c.SetDeliveryState(message, delivery).core, m) ==> Acknowledged(c, m)
  {
  }

  lemma SendAcknowledges(c: Core, conversation: nat, sender: string, body: string, inReplyTo: Option<nat>, now: nat,
                         m: nat)
    ensures Acknowledged(c.SendText(conversation, sender, body, inReplyTo, now).core, m) ==> Acknowledged(c, m)
  {
    hide CheckedBody;
  }

  lemma ReceiveAcknowledges(c: Core, conversation: nat, sender: string, body: string, now: nat, m: nat)
    ensures Acknowledged(c.ReceiveText(conversation, sender, body, now).core, m) ==> Acknowledged(c, m)
  {
    hide CheckedBody;
  }

  lemma DeleteConversationAcknowledges(c: Core, conversation: nat, m: nat)
    ensures Acknowledged(c.DeleteConversation(conversation).core, m) ==> Acknowledged(c, m)
  {
    hide Acknowledged;
    KeptMessagesAcknowledge(c, c.DeleteConversation(conversation).core, m);
  }

  lemma DeleteAccountAcknowledges(c: Core, account: nat, m: nat)
    ensures Acknowledged(c.DeleteAccount(account).core, m) ==> Acknowledged(c, m)
  {
    hide Acknowledged;
    KeptMessagesAcknowledge(c, c.DeleteAccount(account).core, m);
  }

  lemma ReceiptAcknowledges(c: Core, e: TransportEvent, m: nat)
    requires e.DeliveryUpdated? && Acknowledged(c.ApplyTransportEvent(e).core, m) && !Acknowledged(c, m)
    ensures PeerReceipt(c, e, m)
  {
    hide FromThePeer, Weaker, Core.ApplyTransportEvent;
    ReceiptsActForThePeerOnly(c, e);
  }

  lemma EventAcknowledges(c: Core, e: TransportEvent, m: nat)
    requires Acknowledged(c.ApplyTransportEvent(e).core, m) && !Acknowledged(c, m)
    ensures PeerReceipt(c, e, m)
  {
    hide CheckedBody, ValidJid, Split, FromThePeer, Weaker;
    match e
    case DeliveryUpdated(account, sender, message, delivery) => ReceiptAcknowledges(c, e, m);
    case IncomingText(account, kind, address, sender, body, receivedAt) =>
      hide Acknowledged;
      var target := c.FindOrCreate(account, kind, address, Split(address, '@')[0], receivedAt);
      KeptMessagesAcknowledge(c, target.core, m);
      ReceiveAcknowledges(target.core, target.result.value, sender, body, receivedAt, m);
      KeptMessagesAcknowledge(c, c, m);
    case _ =>
      RosterEventIsRosterOnly(c, e);
      KeptMessagesAcknowledge(c, c.ApplyTransportEvent(e).core, m);
  }

  lemma OpAcknowledges(c: Core, op: Op, m: nat)
    requires Numbered(c) && Acknowledged(Perform(c, op).core, m) && !Acknowledged(c, m)
    requires op.OpSetDeliveryState? ==> DeliveryRank(op.delivery) < DeliveryRank(Delivered)
    ensures op.OpTransportEvent? && PeerReceipt(c, op.event, m)
  {
    hide Numbered, Acknowledged, PeerReceipt, ValidJid, Trim, Core.ApplyTransportEvent, Core.SendText;
    hide Core.ReceiveText, Core.Attach, Core.FindOrCreate, Core.CapabilityError, Core.SetDeliveryState;
    hide Core.DeleteConversation, Core.DeleteAccount;
    NextMessageIsNew(c);
    match op
    case OpTransportEvent(event) => EventAcknowledges(c, event, m);
    case OpAttach(message, kind, attachment) => AttachAcknowledges(c, message, kind, attachment, m);
    case OpSetDeliveryState(message, delivery) => WeakUpdateAcknowledges(c, message, delivery, m);
    case OpSendText(conversation, sender, body, inReplyTo, now) =>
      SendAcknowledges(c, conversation, sender, body, inReplyTo, now, m);
    case OpReceiveText(conversation, sender, body, now) => ReceiveAcknowledges(c, conversation, sender, body, now, m);
    case OpOpenConversation(account, kind, address, title, now) =>
      FindOrCreateKeepsMessages(c, account, kind, address, title, now);
      KeptMessagesAcknowledge(c, Perform(c, op).core, m);
    case OpMarkConversationRead(_) => KeptMessagesAcknowledge(c, Perform(c, op).core, m);
    case OpAddReaction(_, _, _) => KeptMessagesAcknowledge(c, Perform(c, op).core, m);
    case OpDeleteConversation(conversation) => DeleteConversationAcknowledges(c, conversation, m);
    case OpDeleteAccount(account) => DeleteAccountAcknowledges(c, account, m);
    case _ =>
      RosterOpIsRosterOnly(c, op);
      KeptMessagesAcknowledge(c, Perform(c, op).core, m);
  }

  /** Some operation of the sequence is a receipt from the peer, at the state it is applied in. */
  ghost predicate ReceiptAmong(c: Core, ops: seq<Op>, m: nat) {
    exists i :: 0 <= i < |ops| && ops[i].OpTransportEvent? && PeerReceipt(RunOps(c, ops[..i]), ops[i].event, m)
  }

  lemma {:induction false} OpsAcknowledge(c: Core, ops: seq<Op>, m: nat)
    requires Numbered(c) && Acknowledged(RunOps(c, ops), m) && !Acknowledged(c, m)
    requires forall i :: 0 <= i < |ops| && ops[i].OpSetDeliveryState? ==>
               DeliveryRank(ops[i].delivery) < DeliveryRank(Delivered)
    ensures ReceiptAmong(c, ops, m)
    decreases |ops|
  {
    hide Numbered, Perform, PeerReceipt, Acknowledged;
    if ops != [] {
      var d := Perform(c, ops[0]).core;
      OpKeepsNumbered(c, ops[0]);
      if Acknowledged(d, m) {
        OpAcknowledges(c, ops[0], m);
        assert RunOps(c, ops[..0]) == c;
      } else {
        OpsAcknowledge(d, ops[1..], m);
        var i :| 0 <= i < |ops[1..]| && ops[1..][i].OpTransportEvent?
                 && PeerReceipt(RunOps(d, ops[1..][..i]), ops[1..][i].event, m);
        assert ops[..i + 1][1..] == ops[1..][..i];
        assert PeerReceipt(RunOps(c, ops[..i + 1]), ops[i + 1].event, m);
      }
    }
  }

  lemma {:induction false} MarkOpsAreWeak(batch: seq<OutgoingMessage>, sent: nat, failed: bool)
    requires sent <= |batch| && (failed ==> sent < |batch|)
    ensures forall i :: 0 <= i < |MarkOps(batch, sent, failed)| ==>
                          MarkOps(batch, sent, failed)[i].OpSetDeliveryState?
                          && DeliveryRank(MarkOps(batch, sent, failed)[i].delivery) < DeliveryRank(Delivered)
    decreases sent
  {
    if sent > 0 {
      MarkOpsAreWeak(batch[1..], sent - 1, failed);
    }
  }

  /** The command polled a receipt for `m` from its own peer. */
  ghost predicate PollsReceipt(s: Session, cmd: Command, m: nat) {
    cmd.PollTransport? && exists i :: 0 <= i < cmd.count <= |s.queue|
                                      && PeerReceipt(RunOps(s.core, EventOps(s.queue[..i])), s.queue[i], m)
  }

  lemma {:induction false} EventOpsPrefix(events: seq<TransportEvent>, i: nat)
    requires i <= |events|
    ensures EventOps(events)[..i] == EventOps(events[..i])
  {
    EventOpsAreEvents(events);
    EventOpsAreEvents(events[..i]);
  }

  lemma CommandAcknowledges(s: Session, cmd: Command, m: nat)
    requires Numbered(s.core) && Enabled(s, cmd) && !cmd.LoadState?
    requires Acknowledged(CoreAfter(s, cmd), m) && !Acknowledged(s.core, m)
    ensures PollsReceipt(s, cmd, m)
  {
    hide Numbered, Perform, RunOps, PeerReceipt, Outbox;
    if cmd.DrainEvents? { return; }
    var ops := OpsOf(s, cmd);
    match cmd {
      case FlushOutbox(account, sent, failed) => MarkOpsAreWeak(Outbox(s.core, account), sent, failed);
      case PollTransport(count) => EventOpsAreEvents(s.queue[..count]);
      case _ =>
    }
    OpsAcknowledge(s.core, ops, m);
    var i :| 0 <= i < |ops| && ops[i].OpTransportEvent? && PeerReceipt(RunOps(s.core, ops[..i]), ops[i].event, m);
    match cmd {
      case PollTransport(count) =>
        EventOpsPrefix(s.queue[..count], i);
        assert s.queue[..count][..i] == s.queue[..i];
      case DisconnectAccount(account, closed) => NoReceipt(RunOps(s.core, ops[..i]), ops[i].event, m);
      case _ =>
    }
  }

  lemma NoReceipt(c: Core, e: TransportEvent, m: nat)
    requires !e.DeliveryUpdated?
    ensures !PeerReceipt(c, e, m)
  {
  }

  /** An outgoing message that is Delivered or Read at the end of a run was so at its start, or some poll of the run
      applied a receipt for it from the peer of its own direct conversation, received on its own account. */
  lemma {:induction false} DeliveryHasProvenance(s: Session, cmds: seq<Command>, m: nat)
    requires Numbered(s.core) && IsRun(s, cmds) && OneLifetime(cmds) && Acknowledged(Final(s, cmds).core, m)
    ensures Acknowledged(s.core, m)
            || exists i :: 0 <= i < |cmds| && IsRun(s, cmds[..i]) && PollsReceipt(Final(s, cmds[..i]), cmds[i], m)
    decreases |cmds|
  {
    hide Numbered, CoreAfter, PollsReceipt, Acknowledged;
    if cmds != [] && !Acknowledged(s.core, m) {
      var t := Exec(s, cmds[0]);
      CommandKeepsNumbered(s, cmds[0]);
      if Acknowledged(t.core, m) {
        CommandAcknowledges(s, cmds[0], m);
        assert cmds[..0] == [];
        assert PollsReceipt(Final(s, cmds[..0]), cmds[0], m);
      } else {
        DeliveryHasProvenance(t, cmds[1..], m);
        var rest := cmds[1..];
        var i :| 0 <= i < |rest| && IsRun(t, rest[..i]) && PollsReceipt(Final(t, rest[..i]), rest[i], m);
        assert cmds[..i + 1][1..] == cmds[1..][..i];
        assert PollsReceipt(Final(s, cmds[..i + 1]), cmds[i + 1], m);
      }
    }
  }

  // ----- ordered, at most once --------------------------------------------------------------------

  /** Per account, accepted sends have strictly increasing message identifiers. */
  ghost predicate WireAscends(wire: seq<OutgoingMessage>) {
    forall i, j :: 0 <= i < j < |wire| && wire[i].account == wire[j].account ==> wire[i].message < wire[j].message
  }

  /** Whatever still waits, or is yet to be written, comes after everything already sent for its account. */
  ghost predicate WireIsBehind(s: Session) {
    && (forall i :: 0 <= i < |s.wire| ==> s.wire[i].message < s.core.nextMessage)
    && (forall i, m :: 0 <= i < |s.wire| && s.core.Waiting(s.wire[i].account, m) ==> s.wire[i].message < m)
  }

  ghost predicate Ordered(s: Session) {
    WireAscends(s.wire) && WireIsBehind(s)
  }

  /** Nothing that was sent or delivered waits again. */
  lemma WaitingShrinks(c: Core, d: Core)
    requires Moored(c) && Succeeds(c, d) && Advances(c, d)
    ensures forall a, m :: d.Waiting(a, m) ==> c.Waiting(a, m) || c.nextMessage <= m
  {
    hide Numbered;
    forall a: nat, m: nat | d.Waiting(a, m) && m < c.nextMessage ensures c.Waiting(a, m) {
      QueuedShrinks(c, d, m);
    }
  }

  lemma QuietCommandKeepsOrder(s: Session, t: Session)
    requires Moored(s.core) && Succeeds(s.core, t.core) && Advances(s.core, t.core)
    requires t.wire == s.wire && Ordered(s)
    ensures Ordered(t)
  {
    hide Moored, Advances;
    WaitingShrinks(s.core, t.core);
  }

  /** After a flush the accepted prefix no longer waits. */
  lemma FlushedIsDone(c: Core, account: nat, sent: nat, failed: bool, i: nat)
    requires Numbered(c)
    requires var q := Outbox(c, account); i < sent <= |q| && (failed ==> sent < |q|)
    ensures !RunOps(c, MarkOps(Outbox(c, account), sent, failed)).Waiting(account, Outbox(c, account)[i].message)
  {
    hide RunOps, MarkOps, Outbox;
    var q := Outbox(c, account);
    OutboxIsQueued(c, account);
    OutboxAscends(c, account);
    FlushEffect(c, q, sent, failed);
    assert q[..sent][i].message == q[i].message;
    assert Listed(q[..sent], q[i].message);
  }

  /** A flush in terms of the outbox it sends. */
  lemma FlushExec(s: Session, account: nat, sent: nat, failed: bool)
    requires Enabled(s, FlushOutbox(account, sent, failed))
    ensures var q := Outbox(s.core, account);
            && sent <= |q| && (failed ==> sent < |q|)
            && CoreAfter(s, FlushOutbox(account, sent, failed)) == RunOps(s.core, MarkOps(q, sent, failed))
            && Exec(s, FlushOutbox(account, sent, failed)) ==
               s.(core := RunOps(s.core, MarkOps(q, sent, failed)), wire := s.wire + q[..sent])
  {
    hide Outbox, RunOps, MarkOps;
  }

  /** What a flush sends comes after what was sent before, and is in order itself. */
  lemma FlushedWireAscends(s: Session, account: nat, sent: nat)
    requires Ordered(s) && sent <= |Outbox(s.core, account)|
    ensures WireAscends(s.wire + Outbox(s.core, account)[..sent])
  {
    hide Outbox;
    var q := Outbox(s.core, account);
    var wire := s.wire + q[..sent];
    OutboxIsQueued(s.core, account);
    OutboxAscends(s.core, account);
    forall i, j | 0 <= i < j < |wire| && wire[i].account == wire[j].account ensures wire[i].message < wire[j].message {
      if |s.wire| <= i {
        assert NatLess(EnvelopeKey(q[i - |s.wire|]), EnvelopeKey(q[j - |s.wire|]));
      } else if |s.wire| <= j {
        assert s.core.Waiting(account, q[j - |s.wire|].message);
      }
    }
  }

  lemma FlushedWireIsBehind(s: Session, d: Core, account: nat, sent: nat, failed: bool)
    requires Moored(s.core) && Ordered(s)
    requires var q := Outbox(s.core, account);
             sent <= |q| && (failed ==> sent < |q|) && d == RunOps(s.core, MarkOps(q, sent, failed))
    requires Succeeds(s.core, d) && Advances(s.core, d)
    ensures WireIsBehind(s.(core := d, wire := s.wire + Outbox(s.core, account)[..sent]))
  {
    hide Moored, Numbered, Advances, RunOps, MarkOps, Outbox, WireAscends, Core.Waiting;
    MooredIsNumbered(s.core);
    var q := Outbox(s.core, account);
    var wire := s.wire + q[..sent];
    OutboxIsQueued(s.core, account);
    forall i | 0 <= i < |wire| ensures wire[i].message < d.nextMessage {
      if |s.wire| <= i {
        MessageIsNumbered(s.core, q[i - |s.wire|].message);
      }
    }
    WaitingShrinks(s.core, d);
    forall i, m | 0 <= i < |wire| && d.Waiting(wire[i].account, m) ensures wire[i].message < m {
      if |s.wire| <= i {
        FlushedStaysAhead(s.core, d, account, sent, failed, i - |s.wire|, m);
      }
    }
  }

  lemma FlushKeepsOrder(s: Session, account: nat, sent: nat, failed: bool)
    requires Moored(s.core) && Enabled(s, FlushOutbox(account, sent, failed)) && Ordered(s)
    ensures Ordered(Exec(s, FlushOutbox(account, sent, failed)))
  {
    hide Moored, Numbered, Succeeds, Advances, RunOps, MarkOps, Outbox, Enabled, Exec, CoreAfter;
    hide WireAscends, WireIsBehind;
    var cmd := FlushOutbox(account, sent, failed);
    MooredIsNumbered(s.core);
    FlushExec(s, account, sent, failed);
    CommandSucceeds(s, cmd);
    CommandAdvances(s, cmd);
    FlushedWireAscends(s, account, sent);
    FlushedWireIsBehind(s, CoreAfter(s, cmd), account, sent, failed);
  }

  lemma MessageIsNumbered(c: Core, m: nat)
    requires Numbered(c) && m in c.messages
    ensures m < c.nextMessage
  {
  }

  lemma FlushedStaysAhead(c: Core, d: Core, account: nat, sent: nat, failed: bool, k: nat, m: nat)
    requires Numbered(c)
    requires var q := Outbox(c, account);
             k < sent <= |q| && (failed ==> sent < |q|) && d == RunOps(c, MarkOps(q, sent, failed))
    requires d.Waiting(account, m) && (c.Waiting(account, m) || c.nextMessage <= m)
    ensures Outbox(c, account)[k].message < m
  {
    hide Numbered, RunOps, MarkOps, Outbox;
    var q := Outbox(c, account);
    OutboxIsQueued(c, account);
    OutboxAscends(c, account);
    if c.Waiting(account, m) {
      var j :| 0 <= j < |q| && q[j].message == m;
      if j < sent {
        FlushedIsDone(c, account, sent, failed, j);
      }
      assert NatLess(EnvelopeKey(q[k]), EnvelopeKey(q[j]));
    } else {
      MessageIsNumbered(c, q[k].message);
    }
  }

  lemma CommandKeepsOrder(s: Session, cmd: Command)
    requires Moored(s.core) && Enabled(s, cmd) && !cmd.LoadState? && Ordered(s)
    ensures Ordered(Exec(s, cmd))
  {
    hide Moored, Numbered, Advances, Succeeds, Ordered, CoreAfter;
    if cmd.FlushOutbox? {
      FlushKeepsOrder(s, cmd.account, cmd.sent, cmd.failed);
    } else {
      MooredIsNumbered(s.core);
      CommandSucceeds(s, cmd);
      CommandAdvances(s, cmd);
      QuietCommandKeepsOrder(s, Exec(s, cmd));
    }
  }

  lemma CommandKeepsMoored(s: Session, cmd: Command)
    requires Moored(s.core) && Enabled(s, cmd) && !cmd.LoadState?
    ensures Moored(CoreAfter(s, cmd))
  {
    hide Moored, RunOps, Perform, Outbox, MarkOps;
    if cmd.DrainEvents? {
      DrainKeepsMoored(s.core);
    } else if cmd.FlushOutbox? {
      FlushKeepsMoored(s.core, cmd.account, cmd.sent, cmd.failed);
    } else {
      if cmd.PollTransport? {
        EventOpsAreEvents(s.queue[..cmd.count]);
      }
      RunKeepsMoored(s.core, OpsOf(s, cmd));
    }
  }

  lemma DrainKeepsMoored(c: Core)
    requires Moored(c)
    ensures Moored(c.(events := []))
  {
  }

  /** Ordered at-most-once sending: through failures, retries, budget stops, receipts, new messages and deletions,
      each account's accepted sends have strictly increasing identifiers, so no message is accepted twice. It takes no
      more of the core than that waiting messages are moored. */
  lemma {:induction false} SendsAreOrderedAndUnique(s: Session, cmds: seq<Command>)
    requires Moored(s.core) && Ordered(s) && IsRun(s, cmds) && OneLifetime(cmds)
    ensures WireAscends(Final(s, cmds).wire)
    ensures s.wire <= Final(s, cmds).wire
    decreases |cmds|
  {
    hide Moored, CoreAfter, WireIsBehind;
    if cmds != [] {
      CommandKeepsOrder(s, cmds[0]);
      CommandKeepsMoored(s, cmds[0]);
      SendsAreOrderedAndUnique(Exec(s, cmds[0]), cmds[1..]);
    }
  }

  lemma SendsFromAnEmptyCore(cmds: seq<Command>)
    requires IsRun(EmptySession, cmds) && OneLifetime(cmds)
    ensures WireAscends(Final(EmptySession, cmds).wire)
  {
    SendsAreOrderedAndUnique(EmptySession, cmds);
  }

  // ----- notification -----------------------------------------------------------------------------

  /** The core at the last point of a run from which the log counts: the last drain or load, or else `base`. */
  ghost function Baseline(base: Core, s: Session, cmds: seq<Command>): Core
    requires IsRun(s, cmds)
    decreases |cmds|
  {
    if cmds == [] then base
    else
      var t := Exec(s, cmds[0]);
      Baseline(if cmds[0].DrainEvents? || cmds[0].LoadState? then t.core else base, t, cmds[1..])
  }

  lemma {:induction false} BaselineIsTheStart(base: Core, s: Session, cmds: seq<Command>)
    requires IsRun(s, cmds) && forall i :: 0 <= i < |cmds| ==> !cmds[i].DrainEvents? && !cmds[i].LoadState?
    ensures Baseline(base, s, cmds) == base
    decreases |cmds|
  {
    hide Enabled, Exec;
    if cmds != [] {
      BaselineIsTheStart(base, Exec(s, cmds[0]), cmds[1..]);
    }
  }

  lemma CommandAnnounces(base: Core, s: Session, cmd: Command)
    requires Inv(base) && Inv(s.core) && Succeeds(base, s.core) && Announces(base, s.core)
    requires Enabled(s, cmd) && !cmd.DrainEvents? && !cmd.LoadState?
    ensures Succeeds(base, CoreAfter(s, cmd)) && Announces(base, CoreAfter(s, cmd))
  {
    hide Inv, Announces, Succeeds, RunOps, Perform;
    CommandKeepsInv(s, cmd);
    CommandSucceeds(s, cmd);
    RunAnnounces(s.core, OpsOf(s, cmd));
    SucceedsTransitive(base, s.core, CoreAfter(s, cmd));
    AnnouncesComposes(base, s.core, CoreAfter(s, cmd));
  }

  lemma {:induction false} CommandsAnnounceFrom(base: Core, s: Session, cmds: seq<Command>)
    requires Inv(base) && Inv(s.core) && Succeeds(base, s.core) && Announces(base, s.core)
    requires IsRun(s, cmds) && SoundLoads(cmds)
    ensures Announces(Baseline(base, s, cmds), Final(s, cmds).core)
    decreases |cmds|
  {
    hide Inv, Announces, Succeeds, CoreAfter, Sound;
    if cmds != [] {
      var cmd, t := cmds[0], Exec(s, cmds[0]);
      CommandKeepsInv(s, cmd);
      if cmd.DrainEvents? || cmd.LoadState? {
        SucceedsReflexive(t.core);
        UnchangedAnnounces(t.core);
        CommandsAnnounceFrom(t.core, t, cmds[1..]);
      } else {
        CommandAnnounces(base, s, cmd);
        CommandsAnnounceFrom(base, t, cmds[1..]);
      }
    }
  }

  /** Whatever commands run, drains and loads among them, the log at the end covers every difference from the core at
      the last drain or load: whoever keeps draining, and reads everything anew after a load, misses nothing. */
  lemma CommandsAnnounce(s: Session, cmds: seq<Command>)
    requires Inv(s.core) && IsRun(s, cmds) && SoundLoads(cmds)
    ensures Announces(Baseline(s.core, s, cmds), Final(s, cmds).core)
    ensures (forall i :: 0 <= i < |cmds| ==> !cmds[i].DrainEvents? && !cmds[i].LoadState?) ==>
              Announces(s.core, Final(s, cmds).core)
  {
    hide Inv, Announces, Succeeds, IsRun, Final, Baseline, Sound;
    SucceedsReflexive(s.core);
    UnchangedAnnounces(s.core);
    CommandsAnnounceFrom(s.core, s, cmds);
    if forall i :: 0 <= i < |cmds| ==> !cmds[i].DrainEvents? && !cmds[i].LoadState? {
      BaselineIsTheStart(s.core, s, cmds);
    }
  }

  /** A load logs nothing, so it is announced exactly if it changes nothing and left nothing undrained. */
  lemma LoadIsAnnouncedIffNothingChanges(s: Session, file: Snapshot)
    requires Enabled(s, LoadState(file))
    ensures var after := CoreAfter(s, LoadState(file));
            Announces(s.core, after) <==> s.core.events == [] && SameRecords(s.core, after)
  {
    RestoreIsAnnouncedIffNothingChanges(s.core, Sanitize(file));
  }
}
