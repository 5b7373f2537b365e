/** The XMPP worker: a connect phase, then a loop over commands, timers and client events. */
module Worker {
  import opened Wrappers
  import opened Text
  import opened Domain
  import opened ReceiptIds

  const PING_INTERVAL_MS: nat := 45000
  const INBOUND_STALE_TIMEOUT_MS: nat := 180000
  const WATCHDOG_CHECK_INTERVAL_MS: nat := 30000

  const STALE_DETAIL := "no inbound data " + "from the server " + "for 3 minutes"
  const TIMEOUT_DETAIL := "connection attempt " + "exceeded 30 seconds"

  // ----- client errors -----------------------------------------------------------------------------

  datatype Cause =
    | AuthRejected | TemporaryAuthFailure | TlsVerification | StreamError | Network | ReconnectBudgetExhausted
    | Internal

  datatype ClientError = ClientError(cause: Cause, text: string)

  datatype LoopAction = Keep | Stop

  predicate Recoverable(e: ClientError) {
    e.cause != AuthRejected && e.cause != TlsVerification
  }

  function ClassifyDisconnect(e: ClientError): DisconnectKind {
    match e.cause
    case TlsVerification => TlsVerificationFailed
    case AuthRejected => AuthenticationFailed
    case TemporaryAuthFailure => AuthenticationFailed
    case StreamError => ServerRefused
    case Network => NetworkLost
    case ReconnectBudgetExhausted => NetworkLost
    case Internal => DisconnectKind.Unknown
  }

  function ReconnectDecision(e: ClientError, autoReconnect: bool): LoopAction {
    if e.cause == ReconnectBudgetExhausted then Stop
    else if Recoverable(e) && autoReconnect then Keep
    else Stop
  }

  function IsInboundStale(idle: nat): bool {
    idle > INBOUND_STALE_TIMEOUT_MS
  }

  // ----- stanzas -------------------------------------------------------------------------------------

  datatype MessageType = Chat | Normal | GroupChat | OtherType

  datatype RosterChange = Removed(jid: string) | Upserted(jid: string, name: string, subscription: RosterSubscription)

  /** Parsed stanzas. Senders are bare addresses; `receipts` are the identifiers in well-formed receipt payloads. */
  datatype Stanza =
    | MessageStanza(messageType: MessageType, sender: Option<string>, receipts: seq<string>, body: Option<string>,
                    receivedAt: nat)
    | PresenceStanza(sender: Option<string>, presence: Option<ContactPresence>, status: Option<string>)
    | RosterStanza(changes: seq<RosterChange>)
    | DiscoStanza(features: set<Capability>)
    | OtherStanza

  function ReceiptEvents(account: nat, sender: string, receipts: seq<string>): seq<TransportEvent> {
    if receipts == [] then []
    else
      var rest := ReceiptEvents(account, sender, receipts[1..]);
      match ParseReceiptMessageId(receipts[0])
      case None => rest
      case Some(message) => [DeliveryUpdated(account, sender, message, Delivered)] + rest
  }

  function RosterEvents(account: nat, changes: seq<RosterChange>): seq<TransportEvent> {
    if changes == [] then []
    else
      var event := match changes[0]
                   case Removed(jid) => RosterContactRemoved(account, jid)
                   case Upserted(jid, name, subscription) => RosterContactUpsert(account, jid, name, subscription);
      [event] + RosterEvents(account, changes[1..])
  }

  function Translate(account: nat, stanza: Stanza, streamCapabilities: set<Capability>): seq<TransportEvent> {
    match stanza
    case MessageStanza(messageType, sender, receipts, body, receivedAt) =>
      if sender.None? then []
      else
        (if messageType.Chat? || messageType.Normal? then ReceiptEvents(account, sender.value, receipts) else [])
        + if messageType.Chat? && body.Some? && Trim(body.value) != ""
          then [IncomingText(account, Direct, sender.value, sender.value, body.value, receivedAt)] else []
    case PresenceStanza(sender, presence, status) =>
      if sender.None? || presence.None? then []
      else [ContactPresenceUpdated(account, sender.value, presence.value, status)]
    case RosterStanza(changes) => RosterEvents(account, changes)
    case DiscoStanza(features) => [CapabilitiesDiscovered(account, streamCapabilities + features)]
    case OtherStanza => []
  }

  predicate IsConnectivity(e: TransportEvent) {
    e.Connected? || e.Disconnected?
  }

  predicate OwnEvents(events: seq<TransportEvent>, account: nat) {
    forall i :: 0 <= i < |events| ==> events[i].account == account
  }

  predicate NoConnectivity(events: seq<TransportEvent>) {
    forall i :: 0 <= i < |events| ==> !IsConnectivity(events[i])
  }

  lemma {:induction false} ReceiptEventsAreReceipts(account: nat, sender: string, receipts: seq<string>)
    ensures var events := ReceiptEvents(account, sender, receipts);
            OwnEvents(events, account) && NoConnectivity(events)
  {
    if receipts != [] {
      ReceiptEventsAreReceipts(account, sender, receipts[1..]);
    }
  }

  lemma {:induction false} RosterEventsAreRoster(account: nat, changes: seq<RosterChange>)
    ensures OwnEvents(RosterEvents(account, changes), account) && NoConnectivity(RosterEvents(account, changes))
  {
    if changes != [] {
      RosterEventsAreRoster(account, changes[1..]);
    }
  }

  /** Stanzas never change connectivity, and only ever speak for the worker's own account. */
  lemma TranslationIsOwn(account: nat, stanza: Stanza, streamCapabilities: set<Capability>)
    ensures var events := Translate(account, stanza, streamCapabilities);
            OwnEvents(events, account) && NoConnectivity(events)
  {
    match stanza
    case MessageStanza(messageType, sender, receipts, body, receivedAt) =>
      if sender.Some? {
        ReceiptEventsAreReceipts(account, sender.value, receipts);
      }
    case RosterStanza(changes) => RosterEventsAreRoster(account, changes);
    case _ =>
  }

  // ----- the worker as a step machine ------------------------------------------------------------------

  datatype ClientEvent =
    SessionOnline(features: set<Capability>) | SessionLost(error: ClientError) | Received(stanza: Stanza)

  datatype Exit = ByCommand | ChannelClosed | ConnectFailed | ClientStopped | Stale | StreamEnded

  datatype ConnectOutcome =
    | Commanded
    | Dropped
    | Failure(detail: string, recoverable: bool, kind: DisconnectKind)
    | TimedOut
    | Ready(pending: Option<ClientEvent>)

  /** One branch of the loop, at the time it is taken. */
  datatype Input =
    | SendCommand(at: nat)
    | DisconnectCommand(at: nat)
    | CloseChannel(at: nat)
    | PingTick(at: nat)
    | WatchdogTick(at: nat)
    | FromClient(at: nat, event: ClientEvent)
    | EndOfStream(at: nat)

  datatype Worker = Worker(
    account: nat, autoReconnect: bool, live: bool, streamCapabilities: set<Capability>, started: nat, clock: nat,
    lastInbound: nat, nextPing: nat, nextWatchdog: nat, log: seq<TransportEvent>, exit: Option<Exit>)

  /** The first deadline of a timer after `now`: missed ticks are skipped. */
  function NextDeadline(started: nat, period: nat, now: nat): (deadline: nat)
    requires period > 0 && started <= now
    ensures now < deadline <= now + period
  {
    var elapsed := now - started;
    started + elapsed - elapsed % period + period
  }

  function HandleEvent(w: Worker, event: ClientEvent): Worker {
    match event
    case SessionOnline(features) =>
      var capabilities := features * {StreamManagement};
      w.(live := true, streamCapabilities := capabilities, log := w.log + [Connected(w.account, capabilities)])
    case SessionLost(error) =>
      w.(live := false,
         log := w.log + [Disconnected(w.account, Recoverable(error), Some(error.text), ClassifyDisconnect(error))],
         exit := if ReconnectDecision(error, w.autoReconnect).Stop? then Some(ClientStopped) else None)
    case Received(stanza) => w.(log := w.log + Translate(w.account, stanza, w.streamCapabilities))
  }

  function Start(account: nat, autoReconnect: bool, outcome: ConnectOutcome, at: nat): Worker {
    var w := Worker(account, autoReconnect, false, {}, at, at, at, at, at, [], None);
    match outcome
    case Commanded => w.(exit := Some(ByCommand))
    case Dropped => w.(exit := Some(ChannelClosed))
    case Failure(detail, recoverable, kind) =>
      w.(log := [Disconnected(account, recoverable, Some(detail), kind)], exit := Some(ConnectFailed))
    case TimedOut =>
      w.(log := [Disconnected(account, true, Some(TIMEOUT_DETAIL), NetworkLost)],
         exit := Some(ConnectFailed))
    case Ready(pending) => if pending.Some? then HandleEvent(w, pending.value) else w
  }

  predicate Enabled(w: Worker, input: Input) {
    && w.exit.None? && w.clock <= input.at
    && (input.PingTick? ==> w.live && w.nextPing <= input.at)
    && (input.WatchdogTick? ==> w.live && w.nextWatchdog <= input.at)
  }

  function Step(w: Worker, input: Input): Worker
    requires Enabled(w, input) && w.lastInbound <= w.clock && w.started <= w.clock
  {
    var v := w.(clock := input.at);
    match input
    case SendCommand(at) => v
    case DisconnectCommand(at) => v.(exit := Some(ByCommand))
    case CloseChannel(at) => v.(exit := Some(ChannelClosed))
    case PingTick(at) => v.(nextPing := NextDeadline(w.started, PING_INTERVAL_MS, at))
    case WatchdogTick(at) =>
      var u := v.(nextWatchdog := NextDeadline(w.started, WATCHDOG_CHECK_INTERVAL_MS, at));
      if !IsInboundStale(at - w.lastInbound) then u
      else
        u.(live := false,
           log := w.log + [Disconnected(w.account, true, Some(STALE_DETAIL), NetworkLost)],
           exit := if w.autoReconnect then None else Some(Stale))
    case FromClient(at, event) => HandleEvent(v.(lastInbound := at), event)
    case EndOfStream(at) =>
      v.(log := w.log + [Disconnected(w.account, true, None, NetworkLost)], exit := Some(StreamEnded))
  }

  // ----- connectivity ------------------------------------------------------------------------------------

  /** The last connectivity event of a log: whether it was Connected. */
  function LastConnectivity(log: seq<TransportEvent>): Option<bool> {
    if log == [] then None
    else if IsConnectivity(log[|log| - 1]) then Some(log[|log| - 1].Connected?)
    else LastConnectivity(log[..|log| - 1])
  }

  lemma {:induction false} QuietEventsKeepConnectivity(log: seq<TransportEvent>, events: seq<TransportEvent>)
    requires NoConnectivity(events)
    ensures LastConnectivity(log + events) == LastConnectivity(log)
  {
    if events == [] {
      assert log + events == log;
    } else {
      assert (log + events)[..|log + events| - 1] == log + events[..|events| - 1];
      QuietEventsKeepConnectivity(log, events[..|events| - 1]);
    }
  }

  /** At every iteration the session is live exactly when the last connectivity event emitted is Connected; and an
      exit that no command and no closed channel caused has just reported a disconnect. */
  predicate Coherent(w: Worker) {
    && w.started <= w.lastInbound <= w.clock
    && OwnEvents(w.log, w.account)
    && (w.exit.None? ==> (w.live <==> LastConnectivity(w.log) == Some(true)))
    && (w.exit.Some? && w.exit.value != ByCommand && w.exit.value != ChannelClosed ==>
          LastConnectivity(w.log) == Some(false))
  }

  lemma HandleEventIsCoherent(w: Worker, event: ClientEvent)
    requires Coherent(w) && w.exit.None?
    ensures Coherent(HandleEvent(w, event))
  {
    hide Translate;
    if event.Received? {
      TranslationIsOwn(w.account, event.stanza, w.streamCapabilities);
      QuietEventsKeepConnectivity(w.log, Translate(w.account, event.stanza, w.streamCapabilities));
    }
  }

  lemma StepIsCoherent(w: Worker, input: Input)
    requires Coherent(w) && Enabled(w, input)
    ensures Coherent(Step(w, input))
  {
    hide HandleEvent;
    if input.FromClient? {
      HandleEventIsCoherent(w.(clock := input.at, lastInbound := input.at), input.event);
    }
  }

  lemma StartIsCoherent(account: nat, autoReconnect: bool, outcome: ConnectOutcome, at: nat)
    ensures Coherent(Start(account, autoReconnect, outcome, at))
  {
    hide HandleEvent;
    if outcome.Ready? && outcome.pending.Some? {
      HandleEventIsCoherent(Start(account, autoReconnect, Ready(None), at), outcome.pending.value);
    }
  }

  predicate IsRun(w: Worker, inputs: seq<Input>)
    decreases |inputs|
  {
    inputs != [] ==>
      && Enabled(w, inputs[0]) && w.lastInbound <= w.clock && w.started <= w.clock
      && IsRun(Step(w, inputs[0]), inputs[1..])
  }

  function Final(w: Worker, inputs: seq<Input>): Worker
    requires IsRun(w, inputs)
    decreases |inputs|
  {
    if inputs == [] then w else Final(Step(w, inputs[0]), inputs[1..])
  }

  lemma {:induction false} RunIsCoherent(w: Worker, inputs: seq<Input>)
    requires Coherent(w) && IsRun(w, inputs)
    ensures Coherent(Final(w, inputs))
    decreases |inputs|
  {
    hide Step, Enabled;
    if inputs != [] {
      StepIsCoherent(w, inputs[0]);
      RunIsCoherent(Step(w, inputs[0]), inputs[1..]);
    }
  }

  /** From the connect phase on, in every run of every worker. */
  lemma WorkerConnectivity(account: nat, autoReconnect: bool, outcome: ConnectOutcome, at: nat, inputs: seq<Input>)
    requires IsRun(Start(account, autoReconnect, outcome, at), inputs)
    ensures Coherent(Final(Start(account, autoReconnect, outcome, at), inputs))
  {
    StartIsCoherent(account, autoReconnect, outcome, at);
    RunIsCoherent(Start(account, autoReconnect, outcome, at), inputs);
  }

  // ----- the watchdog --------------------------------------------------------------------------------------

  /** A tick that finds a live session idle for more than 180 seconds reports it at once. */
  lemma StaleSessionIsReported(w: Worker, at: nat)
    requires Coherent(w) && Enabled(w, WatchdogTick(at))
    ensures var v := Step(w, WatchdogTick(at));
            if at - w.lastInbound > INBOUND_STALE_TIMEOUT_MS
            then !v.live && |v.log| == |w.log| + 1 && LastConnectivity(v.log) == Some(false)
                 && (v.exit.None? <==> w.autoReconnect)
            else v.live && v.log == w.log && v.exit.None?
  {
  }

  /** How late a branch is taken while a watchdog tick is due on a live session: a bounded send, for one, may hold the
      loop. A tick becomes due at its deadline, or when the session went live if that was later. */
  function Late(w: Worker, input: Input): nat {
    var due := if w.lastInbound < w.nextWatchdog then w.nextWatchdog else w.lastInbound;
    if w.live && due < input.at then input.at - due else 0
  }

  /** The worst of it over a run. */
  function Lateness(w: Worker, inputs: seq<Input>): nat
    requires IsRun(w, inputs)
    decreases |inputs|
  {
    if inputs == [] then 0
    else
      var rest := Lateness(Step(w, inputs[0]), inputs[1..]);
      if rest < Late(w, inputs[0]) then Late(w, inputs[0]) else rest
  }

  predicate OnTime(w: Worker, late: nat) {
    && w.nextWatchdog <= w.clock + WATCHDOG_CHECK_INTERVAL_MS
    && (w.exit.None? && w.live ==>
          && w.clock <= w.lastInbound + INBOUND_STALE_TIMEOUT_MS + WATCHDOG_CHECK_INTERVAL_MS + late
          && w.nextWatchdog <= w.lastInbound + INBOUND_STALE_TIMEOUT_MS + WATCHDOG_CHECK_INTERVAL_MS)
  }

  lemma StepIsOnTime(w: Worker, input: Input, late: nat)
    requires Coherent(w) && Enabled(w, input) && OnTime(w, late) && Late(w, input) <= late
    ensures OnTime(Step(w, input), late)
  {
    hide Translate, LastConnectivity, NextDeadline;
  }

  lemma {:induction false} QuietSessionsAreReportedInTime(w: Worker, inputs: seq<Input>, late: nat)
    requires Coherent(w) && IsRun(w, inputs) && Lateness(w, inputs) <= late && OnTime(w, late)
    ensures OnTime(Final(w, inputs), late)
    decreases |inputs|
  {
    hide Step, Coherent, Enabled, OnTime, Late;
    if inputs != [] {
      StepIsCoherent(w, inputs[0]);
      StepIsOnTime(w, inputs[0], late);
      QuietSessionsAreReportedInTime(Step(w, inputs[0]), inputs[1..], late);
    }
  }

  lemma WorkersStartOnTime(account: nat, autoReconnect: bool, outcome: ConnectOutcome, at: nat, late: nat)
    ensures OnTime(Start(account, autoReconnect, outcome, at), late)
  {
    hide Translate;
  }

  /** In every run of every worker, a session that is live has been heard from within 210 seconds, plus however late the
      loop was for a due tick: past 180 seconds of silence, the next 30-second tick taken reports it. */
  lemma LiveSessionsWereHeardFrom(account: nat, autoReconnect: bool, outcome: ConnectOutcome, at: nat,
                                  inputs: seq<Input>)
    requires IsRun(Start(account, autoReconnect, outcome, at), inputs)
    ensures var w := Final(Start(account, autoReconnect, outcome, at), inputs);
            w.exit.None? && w.live ==>
              w.clock - w.lastInbound <= INBOUND_STALE_TIMEOUT_MS + WATCHDOG_CHECK_INTERVAL_MS
                                         + Lateness(Start(account, autoReconnect, outcome, at), inputs)
  {
    hide Coherent;
    var late := Lateness(Start(account, autoReconnect, outcome, at), inputs);
    StartIsCoherent(account, autoReconnect, outcome, at);
    WorkersStartOnTime(account, autoReconnect, outcome, at, late);
    QuietSessionsAreReportedInTime(Start(account, autoReconnect, outcome, at), inputs, late);
  }

  // ----- the loop as written ---------------------------------------------------------------------------------

  /** What one client event does: the events it emits, the new flags, and whether the loop goes on. */
  method HandleClientEvent(account: nat, event: ClientEvent, autoReconnect: bool, streamCapabilities: set<Capability>,
                           sessionLive: bool)
    returns (emitted: seq<TransportEvent>, capabilities: set<Capability>, live: bool, action: LoopAction)
    ensures forall w: Worker ::
              && w.account == account && w.autoReconnect == autoReconnect && w.streamCapabilities == streamCapabilities
              && w.live == sessionLive && w.exit.None? ==>
                HandleEvent(w, event) == w.(log := w.log + emitted, streamCapabilities := capabilities, live := live,
                                            exit := if action.Stop? then Some(ClientStopped) else None)
  {
    emitted, capabilities, live, action := [], streamCapabilities, sessionLive, Keep;
    match event {
      case SessionOnline(features) =>
        live := true;
        capabilities := features * {StreamManagement};
        emitted := [Connected(account, capabilities)];
      case SessionLost(error) =>
        live := false;
        emitted := [Disconnected(account, Recoverable(error), Some(error.text), ClassifyDisconnect(error))];
        action := ReconnectDecision(error, autoReconnect);
      case Received(stanza) =>
        emitted := Translate(account, stanza, streamCapabilities);
    }
  }

  lemma NothingAfterExit(w: Worker, inputs: seq<Input>)
    requires IsRun(w, inputs) && w.exit.Some?
    ensures inputs == []
  {
  }

  /** The connect phase: silent when a command ends it, a terminal event when it fails. */
  method ConnectPhase(account: nat, autoReconnect: bool, outcome: ConnectOutcome, ghost at: nat)
    returns (log: seq<TransportEvent>, capabilities: set<Capability>, live: bool, exit: Option<Exit>)
    ensures Start(account, autoReconnect, outcome, at) ==
            Worker(account, autoReconnect, live, capabilities, at, at, at, at, at, log, exit)
  {
    hide Translate;
    log, capabilities, live, exit := [], {}, false, None;
    match outcome {
      case Commanded => exit := Some(ByCommand);
      case Dropped => exit := Some(ChannelClosed);
      case Failure(detail, recoverable, kind) =>
        log, exit := [Disconnected(account, recoverable, Some(detail), kind)], Some(ConnectFailed);
      case TimedOut =>
        log := [Disconnected(account, true, Some(TIMEOUT_DETAIL), NetworkLost)];
        exit := Some(ConnectFailed);
      case Ready(pending) =>
        if pending.Some? {
          ghost var w := Start(account, autoReconnect, Ready(None), at);
          assert w.log == [];
          var action;
          log, capabilities, live, action :=
            HandleClientEvent(account, pending.value, autoReconnect, capabilities, live);
          if action.Stop? { exit := Some(ClientStopped); }
          assert [] + log == log;
          assert HandleEvent(w, pending.value).log == log;
        }
    }
  }

  /** One turn of the loop over the worker's local variables. */
  method Turn(ghost w: Worker, input: Input, account: nat, autoReconnect: bool, live: bool,
              capabilities: set<Capability>,
              lastInbound: nat)
    returns (emitted: seq<TransportEvent>, nextCapabilities: set<Capability>, nextLive: bool, inbound: nat,
             exit: Option<Exit>)
    requires Coherent(w) && Enabled(w, input)
    requires w.account == account && w.autoReconnect == autoReconnect && w.live == live
             && w.streamCapabilities == capabilities && w.lastInbound == lastInbound
    ensures var v := Step(w, input);
            && v.log == w.log + emitted && v.live == nextLive && v.streamCapabilities == nextCapabilities
            && v.lastInbound == inbound && v.exit == exit
            && (v.account, v.autoReconnect) == (account, autoReconnect)
  {
    hide Translate, LastConnectivity;
    emitted, nextCapabilities, nextLive, inbound, exit := [], capabilities, live, lastInbound, None;
    match input {
      case SendCommand(_) =>
      case DisconnectCommand(_) => exit := Some(ByCommand);
      case CloseChannel(_) => exit := Some(ChannelClosed);
      case PingTick(_) =>
      case WatchdogTick(now) =>
        if IsInboundStale(now - lastInbound) {
          nextLive := false;
          emitted := [Disconnected(account, true, Some(STALE_DETAIL), NetworkLost)];
          if !autoReconnect { exit := Some(Stale); }
        }
      case FromClient(now, event) =>
        inbound := now;
        var action;
        emitted, nextCapabilities, nextLive, action :=
          HandleClientEvent(account, event, autoReconnect, capabilities, live);
        if action.Stop? { exit := Some(ClientStopped); }
        assert HandleEvent(w.(clock := now, lastInbound := now), event).log == w.log + emitted;
      case EndOfStream(_) =>
        emitted, exit := [Disconnected(account, true, None, NetworkLost)], Some(StreamEnded);
    }
  }

  /** The worker over a script of loop turns: it emits the log of the step machine and stops where that stops. */
  method RunWorker(account: nat, autoReconnect: bool, outcome: ConnectOutcome, at: nat, script: seq<Input>)
    returns (log: seq<TransportEvent>, exit: Option<Exit>)
    requires IsRun(Start(account, autoReconnect, outcome, at), script)
    ensures var w := Final(Start(account, autoReconnect, outcome, at), script); log == w.log && exit == w.exit
    ensures OwnEvents(log, account)
    ensures exit.Some? && exit.value != ByCommand && exit.value != ChannelClosed ==>
              LastConnectivity(log) == Some(false)
  {
    hide Translate, HandleEvent, LastConnectivity, Step, Start;
    ghost var w := Start(account, autoReconnect, outcome, at);
    WorkerConnectivity(account, autoReconnect, outcome, at, script);
    StartIsCoherent(account, autoReconnect, outcome, at);
    var live, capabilities;
    log, capabilities, live, exit := ConnectPhase(account, autoReconnect, outcome, at);
    var lastInbound := at;
    var i := 0;
    assert script[0..] == script;
    while exit.None? && i < |script|
      invariant i <= |script|
      invariant IsRun(w, script[i..]) && Coherent(w)
      invariant Final(w, script[i..]) == Final(Start(account, autoReconnect, outcome, at), script)
      invariant w.account == account && w.autoReconnect == autoReconnect
      invariant w.log == log && w.exit == exit && w.live == live && w.streamCapabilities == capabilities
      invariant w.lastInbound == lastInbound
    {
      assert script[i..][0] == script[i] && script[i..][1..] == script[i + 1..];
      var emitted;
      emitted, capabilities, live, lastInbound, exit :=
        Turn(w, script[i], account, autoReconnect, live, capabilities, lastInbound);
      log := log + emitted;
      StepIsCoherent(w, script[i]);
      w := Step(w, script[i]);
      i := i + 1;
    }
    if exit.Some? {
      NothingAfterExit(w, script[i..]);
    }
  }
}
