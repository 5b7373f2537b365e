/** What a worker says: which events of its log stem from which stanza or turn, over every run, stated without the
    functions that translate them. */
module WorkerLog {
  import opened Wrappers
  import opened Text
  import opened Domain
  import opened ReceiptIds
  import opened Worker

  // ----- what a stanza says ------------------------------------------------------------------------------------

  /** The kinds of events stanzas give rise to. */
  datatype Kind = Texts | Acks | Presences | Roster | Discoveries | Connections

  predicate Is(kind: Kind, e: TransportEvent) {
    match kind
    case Texts => e.IncomingText?
    case Acks => e.DeliveryUpdated?
    case Presences => e.ContactPresenceUpdated?
    case Roster => e.RosterContactUpsert? || e.RosterContactRemoved?
    case Discoveries => e.CapabilitiesDiscovered?
    case Connections => e.Connected?
  }

  ghost predicate Names(id: string, message: nat) {
    1 <= message <= 0xFFFF_FFFF_FFFF_FFFF
    && exists digits ::
         digits != "" && AllDigits(digits) && id == "mindchat-" + digits && DecimalValue(digits) == message
  }

  /** The messages that identifiers name, in order; an identifier that names none is passed over. */
  ghost function Named(ids: seq<string>): seq<nat> {
    if ids == [] then []
    else
      (if exists m :: Names(ids[0], m) then (var m :| Names(ids[0], m); [m]) else []) + Named(ids[1..])
  }

  lemma NamesIffParses(id: string, m: nat)
    ensures Names(id, m) <==> ParseReceiptMessageId(id) == Some(m)
  {
    ParsesIffNumeral(id, m);
  }

  ghost function Acknowledgements(account: nat, sender: string, messages: seq<nat>): seq<TransportEvent> {
    seq(|messages|, i requires 0 <= i < |messages| => DeliveryUpdated(account, sender, messages[i], Delivered))
  }

  /** The events of one kind a stanza gives rise to. A text needs a chat message with a sender and something in it;
      receipts need a chat or normal message with a sender; a presence needs a sender and a meaning; what a server
      offers is joined to what its stream offers. */
  ghost function In(kind: Kind, account: nat, stream: set<Capability>, s: Stanza): seq<TransportEvent> {
    match kind
    case Texts =>
      if s.MessageStanza? && s.messageType == Chat && s.sender.Some? && s.body.Some? && !Blank(s.body.value)
      then [IncomingText(account, Direct, s.sender.value, s.sender.value, s.body.value, s.receivedAt)] else []
    case Acks =>
      if s.MessageStanza? && (s.messageType == Chat || s.messageType == Normal) && s.sender.Some?
      then Acknowledgements(account, s.sender.value, Named(s.receipts)) else []
    case Presences =>
      if s.PresenceStanza? && s.sender.Some? && s.presence.Some?
      then [ContactPresenceUpdated(account, s.sender.value, s.presence.value, s.status)] else []
    case Roster =>
      if s.RosterStanza?
      then seq(|s.changes|, i requires 0 <= i < |s.changes| =>
                              match s.changes[i]
                              case Removed(jid) => RosterContactRemoved(account, jid)
                              case Upserted(jid, name, subscription) =>
                                RosterContactUpsert(account, jid, name, subscription))
      else []
    case Discoveries => if s.DiscoStanza? then [CapabilitiesDiscovered(account, stream + s.features)] else []
    case Connections => []
  }

  lemma OneMoreAcknowledgement(account: nat, sender: string, m: nat, messages: seq<nat>)
    ensures Acknowledgements(account, sender, [m] + messages) ==
            [DeliveryUpdated(account, sender, m, Delivered)] + Acknowledgements(account, sender, messages)
  {
  }

  lemma {:induction false} ReceiptsAreNamed(account: nat, sender: string, ids: seq<string>)
    ensures ReceiptEvents(account, sender, ids) == Acknowledgements(account, sender, Named(ids))
  {
    hide ParseReceiptMessageId, Names, Named, Acknowledgements;
    if ids == [] {
      NoneNamed(account, sender);
    } else {
      ReceiptsAreNamed(account, sender, ids[1..]);
      FirstNamed(ids);
      var rest := Named(ids[1..]);
      match ParseReceiptMessageId(ids[0])
      case None => assert [] + rest == rest;
      case Some(m) => OneMoreAcknowledgement(account, sender, m, rest);
    }
  }

  lemma NoneNamed(account: nat, sender: string)
    ensures Acknowledgements(account, sender, Named([])) == []
  {
  }

  lemma FirstNamed(ids: seq<string>)
    requires ids != []
    ensures Named(ids) ==
            (match ParseReceiptMessageId(ids[0]) case None => [] case Some(m) => [m]) + Named(ids[1..])
  {
    hide ParseReceiptMessageId, Names;
    forall m: nat ensures Names(ids[0], m) <==> ParseReceiptMessageId(ids[0]) == Some(m) {
      NamesIffParses(ids[0], m);
    }
    var p := ParseReceiptMessageId(ids[0]);
    if p.Some? {
      assert Names(ids[0], p.value);
    }
  }

  lemma {:induction false} ChangesAreListed(account: nat, changes: seq<RosterChange>)
    ensures RosterEvents(account, changes) == In(Roster, account, {}, RosterStanza(changes))
  {
    if changes != [] {
      ChangesAreListed(account, changes[1..]);
    }
  }

  /** A stanza gives rise to the receipts in it, then its text, or to its presence, roster changes or capabilities. */
  lemma StanzaYields(account: nat, stream: set<Capability>, s: Stanza)
    ensures Translate(account, s, stream) ==
            In(Acks, account, stream, s) + In(Texts, account, stream, s) + In(Presences, account, stream, s)
            + In(Roster, account, stream, s) + In(Discoveries, account, stream, s)
  {
    hide Trim, Blank, Named, Acknowledgements, ReceiptEvents, RosterEvents;
    match s
    case MessageStanza(_, sender, receipts, body, _) =>
      if sender.Some? { ReceiptsAreNamed(account, sender.value, receipts); }
      if body.Some? { TrimIsTrimmed(body.value); }
    case RosterStanza(changes) => ChangesAreListed(account, changes);
    case _ =>
  }

  // ----- over a whole run --------------------------------------------------------------------------------------

  /** What the server may be asked on this stream: resumption, if it offers it. */
  ghost function Kept(features: set<Capability>): set<Capability> {
    if StreamManagement in features then {StreamManagement} else {}
  }

  /** The input that a worker starts with: one client event may be pending when the connect phase ends. */
  function Pending(outcome: ConnectOutcome, at: nat): seq<Input> {
    if outcome.Ready? && outcome.pending.Some? then [FromClient(at, outcome.pending.value)] else []
  }

  /** The events of one kind, in order. */
  function Those(kind: Kind, events: seq<TransportEvent>): seq<TransportEvent> {
    if events == [] then []
    else (if Is(kind, events[0]) then [events[0]] else []) + Those(kind, events[1..])
  }

  /** What a whole run of inputs has to say, of one kind: `stream` is what the current stream offers. */
  ghost function AllIn(kind: Kind, account: nat, stream: set<Capability>, inputs: seq<Input>): seq<TransportEvent>
    decreases |inputs|
  {
    if inputs == [] then []
    else if inputs[0].FromClient? && inputs[0].event.SessionOnline? then
      var kept := Kept(inputs[0].event.features);
      (if kind == Connections then [Connected(account, kept)] else []) + AllIn(kind, account, kept, inputs[1..])
    else if inputs[0].FromClient? && inputs[0].event.Received? then
      In(kind, account, stream, inputs[0].event.stanza) + AllIn(kind, account, stream, inputs[1..])
    else AllIn(kind, account, stream, inputs[1..])
  }

  lemma {:induction false} ThoseAppend(kind: Kind, events: seq<TransportEvent>, more: seq<TransportEvent>)
    ensures Those(kind, events + more) == Those(kind, events) + Those(kind, more)
  {
    hide Is;
    if events == [] {
      assert events + more == more;
    } else {
      assert (events + more)[1..] == events[1..] + more;
      ThoseAppend(kind, events[1..], more);
      var first := if Is(kind, events[0]) then [events[0]] else [];
      assert Those(kind, events + more) == first + Those(kind, events[1..] + more);
      assert first + (Those(kind, events[1..]) + Those(kind, more)) ==
             first + Those(kind, events[1..]) + Those(kind, more);
    }
  }

  lemma {:induction false} ThoseOfAll(kind: Kind, events: seq<TransportEvent>)
    requires forall i :: 0 <= i < |events| ==> Is(kind, events[i])
    ensures Those(kind, events) == events
  {
    hide Is;
    if events != [] {
      ThoseOfAll(kind, events[1..]);
    }
  }

  lemma {:induction false} ThoseOfNone(kind: Kind, events: seq<TransportEvent>)
    requires forall i :: 0 <= i < |events| ==> !Is(kind, events[i])
    ensures Those(kind, events) == []
  {
    hide Is;
    if events != [] {
      ThoseOfNone(kind, events[1..]);
    }
  }

  lemma KindsAreApart(kind: Kind, other: Kind, account: nat, stream: set<Capability>, s: Stanza)
    ensures Those(kind, In(other, account, stream, s)) == if kind == other then In(other, account, stream, s) else []
  {
    hide Blank, Named;
    if kind == other {
      ThoseOfAll(kind, In(other, account, stream, s));
    } else {
      ThoseOfNone(kind, In(other, account, stream, s));
    }
  }

  lemma StanzaYieldsItsKind(kind: Kind, account: nat, stream: set<Capability>, s: Stanza)
    ensures Those(kind, Translate(account, s, stream)) == In(kind, account, stream, s)
  {
    hide In, Translate, Is, Those;
    var r, t := In(Acks, account, stream, s), In(Texts, account, stream, s);
    var p, q := In(Presences, account, stream, s), In(Roster, account, stream, s);
    var d := In(Discoveries, account, stream, s);
    StanzaYields(account, stream, s);
    ThoseAppend(kind, r + t + p + q, d);
    ThoseAppend(kind, r + t + p, q);
    ThoseAppend(kind, r + t, p);
    ThoseAppend(kind, r, t);
    KindsAreApart(kind, Acks, account, stream, s);
    KindsAreApart(kind, Texts, account, stream, s);
    KindsAreApart(kind, Presences, account, stream, s);
    KindsAreApart(kind, Roster, account, stream, s);
    KindsAreApart(kind, Discoveries, account, stream, s);
    NoStanzaConnects(account, stream, s);
    OneOfMany(kind, r, t, p, q, d);
  }

  lemma OneOfMany<T>(kind: Kind, r: seq<T>, t: seq<T>, p: seq<T>, q: seq<T>, d: seq<T>)
    ensures (if kind == Acks then r else []) + (if kind == Texts then t else []) + (if kind == Presences then p else [])
            + (if kind == Roster then q else []) + (if kind == Discoveries then d else []) ==
            match kind
            case Acks => r
            case Texts => t
            case Presences => p
            case Roster => q
            case Discoveries => d
            case Connections => []
  {
  }

  lemma NoStanzaConnects(account: nat, stream: set<Capability>, s: Stanza)
    ensures In(Connections, account, stream, s) == []
  {
  }

  lemma KeptIsKept(features: set<Capability>)
    ensures features * {StreamManagement} == Kept(features)
  {
  }

  lemma EventSays(kind: Kind, w: Worker, at: nat, event: ClientEvent)
    ensures HandleEvent(w, event).account == w.account
    ensures HandleEvent(w, event).streamCapabilities ==
            if event.SessionOnline? then Kept(event.features) else w.streamCapabilities
    ensures Those(kind, HandleEvent(w, event).log) ==
            Those(kind, w.log) + AllIn(kind, w.account, w.streamCapabilities, [FromClient(at, event)])
  {
    hide Translate, In, Those, Kept, Recoverable, ClassifyDisconnect, ReconnectDecision;
    var said := HandleEvent(w, event).log[|w.log|..];
    assert HandleEvent(w, event).log == w.log + said;
    ThoseAppend(kind, w.log, said);
    assert [FromClient(at, event)][1..] == [];
    if event.Received? {
      StanzaYieldsItsKind(kind, w.account, w.streamCapabilities, event.stanza);
      assert said == Translate(w.account, event.stanza, w.streamCapabilities);
    } else if event.SessionOnline? {
      KeptIsKept(event.features);
      ThoseOfOne(kind, Connected(w.account, Kept(event.features)));
    } else {
      ThoseOfNone(kind, said);
    }
  }

  lemma ThoseOfOne(kind: Kind, e: TransportEvent)
    ensures Those(kind, [e]) == if Is(kind, e) then [e] else []
  {
    assert [e][1..] == [];
  }

  /** One turn adds to the log, of each kind, exactly what its input says. */
  lemma TurnSays(kind: Kind, w: Worker, input: Input)
    requires Coherent(w) && Enabled(w, input)
    ensures Step(w, input).account == w.account
    ensures Step(w, input).streamCapabilities ==
            if input.FromClient? && input.event.SessionOnline? then Kept(input.event.features)
            else w.streamCapabilities
    ensures Those(kind, Step(w, input).log) ==
            Those(kind, w.log) + AllIn(kind, w.account, w.streamCapabilities, [input])
  {
    hide HandleEvent, In, Kept, Those, OwnEvents, LastConnectivity, NextDeadline;
    if input.FromClient? {
      EventSays(kind, w.(clock := input.at, lastInbound := input.at), input.at, input.event);
    } else {
      var said := Step(w, input).log[|w.log|..];
      assert Step(w, input).log == w.log + said;
      ThoseAppend(kind, w.log, said);
      ThoseOfNone(kind, said);
      assert [input][1..] == [];
    }
  }

  lemma {:induction false} RunSays(kind: Kind, w: Worker, inputs: seq<Input>)
    requires Coherent(w) && IsRun(w, inputs)
    ensures Those(kind, Final(w, inputs).log) ==
            Those(kind, w.log) + AllIn(kind, w.account, w.streamCapabilities, inputs)
    decreases |inputs|
  {
    hide Those, In, Kept, Step, Coherent, Enabled;
    if inputs != [] {
      TurnSays(kind, w, inputs[0]);
      StepIsCoherent(w, inputs[0]);
      RunSays(kind, Step(w, inputs[0]), inputs[1..]);
      assert [inputs[0]][1..] == [];
    }
  }

  lemma StartSays(kind: Kind, account: nat, autoReconnect: bool, outcome: ConnectOutcome, at: nat, inputs: seq<Input>)
    ensures var w := Start(account, autoReconnect, outcome, at);
            && w.account == account
            && Those(kind, w.log) + AllIn(kind, account, w.streamCapabilities, inputs) ==
               AllIn(kind, account, {}, Pending(outcome, at) + inputs)
  {
    hide In, Kept, HandleEvent, Those, AllIn;
    if Pending(outcome, at) != [] {
      var before := Start(account, autoReconnect, Ready(None), at);
      EventSays(kind, before, at, outcome.pending.value);
      QuietStart(kind, account, autoReconnect, Ready(None), at);
      OneAndTheRest(kind, account, {}, at, outcome.pending.value, inputs);
    } else {
      assert Pending(outcome, at) + inputs == inputs;
      QuietStart(kind, account, autoReconnect, outcome, at);
    }
  }

  lemma OneAndTheRest(kind: Kind, account: nat, stream: set<Capability>, at: nat, event: ClientEvent,
                      inputs: seq<Input>)
    ensures AllIn(kind, account, stream, [FromClient(at, event)] + inputs) ==
            AllIn(kind, account, stream, [FromClient(at, event)])
            + AllIn(kind, account, if event.SessionOnline? then Kept(event.features) else stream, inputs)
  {
    hide In, Kept;
    var all := [FromClient(at, event)] + inputs;
    assert all[1..] == inputs && [FromClient(at, event)][1..] == [];
  }

  lemma QuietStart(kind: Kind, account: nat, autoReconnect: bool, outcome: ConnectOutcome, at: nat)
    requires Pending(outcome, at) == []
    ensures Those(kind, Start(account, autoReconnect, outcome, at).log) == []
    ensures Start(account, autoReconnect, outcome, at).streamCapabilities == {}
  {
    hide HandleEvent, Those;
    ThoseOfNone(kind, Start(account, autoReconnect, outcome, at).log);
  }

  /** Over every run of every worker, the texts, receipts, presences, roster changes, discoveries and connections of its
      log are, kind by kind and in order, exactly those of what its client handed it: none is lost, added, repeated or
      moved. */
  lemma TheLogIsWhatWasHeard(kind: Kind, account: nat, autoReconnect: bool, outcome: ConnectOutcome, at: nat,
                             inputs: seq<Input>)
    requires IsRun(Start(account, autoReconnect, outcome, at), inputs)
    ensures Those(kind, Final(Start(account, autoReconnect, outcome, at), inputs).log) ==
            AllIn(kind, account, {}, Pending(outcome, at) + inputs)
  {
    hide In, Kept, Those, AllIn, Start, Coherent, Final, IsRun;
    var w := Start(account, autoReconnect, outcome, at);
    StartIsCoherent(account, autoReconnect, outcome, at);
    RunSays(kind, w, inputs);
    StartSays(kind, account, autoReconnect, outcome, at, inputs);
  }

  // ----- sessions ----------------------------------------------------------------------------------------------

  /** What a lost session is taken for, which losses end the worker, and which can be recovered from. */
  lemma LostSessionsAreClassified(error: ClientError, autoReconnect: bool)
    ensures var kind := ClassifyDisconnect(error);
            && (kind == AuthenticationFailed <==> error.cause in {AuthRejected, TemporaryAuthFailure})
            && (kind == TlsVerificationFailed <==> error.cause == TlsVerification)
            && (kind == ServerRefused <==> error.cause == StreamError)
            && (kind == NetworkLost <==> error.cause in {Network, ReconnectBudgetExhausted})
            && (kind == DisconnectKind.Unknown <==> error.cause == Internal)
    ensures Recoverable(error) <==> error.cause !in {AuthRejected, TlsVerification}
    ensures ReconnectDecision(error, autoReconnect) == Keep <==>
            autoReconnect && error.cause !in {AuthRejected, TlsVerification, ReconnectBudgetExhausted}
  {
  }

  /** Which turns a worker can take: any until it has ended, in the order of the clock; a timer only while the session
      is live, at its deadline or later. */
  lemma TurnsPossible(w: Worker, input: Input)
    ensures Enabled(w, input) <==>
            && w.exit == None && input.at >= w.clock
            && match input
               case PingTick(at) => w.live && at >= w.nextPing
               case WatchdogTick(at) => w.live && at >= w.nextWatchdog
               case _ => true
  {
  }

  /** What the client does to the session and the log, turn by turn. */
  lemma ClientTurns(w: Worker, at: nat, event: ClientEvent)
    requires Coherent(w) && Enabled(w, FromClient(at, event))
    ensures var v := Step(w, FromClient(at, event));
            && v == w.(clock := at, lastInbound := at, live := v.live, streamCapabilities := v.streamCapabilities,
                       log := v.log, exit := v.exit)
            && match event
               case SessionOnline(features) =>
                 && v.live && v.exit == None
                 && v.streamCapabilities == Kept(features)
                 && v.log == w.log + [Connected(w.account, v.streamCapabilities)]
               case SessionLost(error) =>
                 && !v.live && v.streamCapabilities == w.streamCapabilities
                 && (v.exit == None || v.exit == Some(ClientStopped))
                 && (v.exit == None <==>
                       w.autoReconnect && error.cause !in {AuthRejected, TlsVerification, ReconnectBudgetExhausted})
                 && v.log == w.log + [Disconnected(w.account, error.cause !in {AuthRejected, TlsVerification},
                                                   Some(error.text), ClassifyDisconnect(error))]
               case Received(stanza) =>
                 && v.live == w.live && v.streamCapabilities == w.streamCapabilities && v.exit == None
                 && var stream := w.streamCapabilities;
                    v.log == w.log + In(Acks, w.account, stream, stanza) + In(Texts, w.account, stream, stanza)
                             + In(Presences, w.account, stream, stanza) + In(Roster, w.account, stream, stanza)
                             + In(Discoveries, w.account, stream, stanza)
  {
    hide Translate, In, LastConnectivity;
    if event.Received? {
      StanzaYields(w.account, w.streamCapabilities, event.stanza);
      var s, c := event.stanza, w.streamCapabilities;
      var r, t, p, q, d := In(Acks, w.account, c, s), In(Texts, w.account, c, s), In(Presences, w.account, c, s),
                           In(Roster, w.account, c, s), In(Discoveries, w.account, c, s);
      assert w.log + (r + t + p + q + d) == w.log + r + t + p + q + d;
    }
  }

  /** What the other turns do: commands and a closed channel end the worker silently, timers move to their next
      deadline, and the end of the stream is reported as recoverable. */
  lemma OtherTurns(w: Worker, input: Input)
    requires Coherent(w) && Enabled(w, input) && !input.FromClient? && !input.WatchdogTick?
    ensures var v := Step(w, input);
            match input
            case SendCommand(at) => v == w.(clock := at)
            case DisconnectCommand(at) => v == w.(clock := at, exit := Some(ByCommand))
            case CloseChannel(at) => v == w.(clock := at, exit := Some(ChannelClosed))
            case PingTick(at) => v == w.(clock := at, nextPing := v.nextPing) && at < v.nextPing <= at + 45000
                                 && (v.nextPing - w.started) % 45000 == 0
            case EndOfStream(at) =>
              v == w.(clock := at, log := w.log + [Disconnected(w.account, true, None, NetworkLost)],
                      exit := Some(StreamEnded))
  {
    hide LastConnectivity;
    if input.PingTick? {
      DeadlinesAreMultiples(w.started, input.at);
    }
  }

  /** A watchdog tick says nothing unless more than 180 seconds have passed in silence; then it says so, and the worker
      goes on if and only if it may reconnect. */
  lemma WatchdogTurns(w: Worker, at: nat)
    requires Coherent(w) && Enabled(w, WatchdogTick(at))
    ensures var v := Step(w, WatchdogTick(at));
            && at < v.nextWatchdog <= at + 30000 && (v.nextWatchdog - w.started) % 30000 == 0
            && v == w.(clock := at, nextWatchdog := v.nextWatchdog, live := v.live, log := v.log, exit := v.exit)
            && if at > w.lastInbound + 180000
               then !v.live && v.exit == (if w.autoReconnect then None else Some(Stale))
                    && var detail := "no inbound data " + "from the server " + "for 3 minutes";
                       v.log == w.log + [Disconnected(w.account, true, Some(detail), NetworkLost)]
               else v.live && v.exit == None && v.log == w.log
  {
    hide LastConnectivity;
    DeadlinesAreMultiples(w.started, at);
  }

  lemma DeadlinesAreMultiples(started: nat, now: nat)
    requires started <= now
    ensures (NextDeadline(started, 45000, now) - started) % 45000 == 0
    ensures (NextDeadline(started, 30000, now) - started) % 30000 == 0
  {
  }

  /** How a worker starts: silent if it was called off, with the reason if it could not connect, and not yet live. */
  lemma StartIsSilentOrSaysWhy(account: nat, autoReconnect: bool, outcome: ConnectOutcome, at: nat)
    requires !(outcome.Ready? && outcome.pending.Some?)
    ensures var w := Start(account, autoReconnect, outcome, at);
            && w == Worker(account, autoReconnect, false, {}, at, at, at, at, at, w.log, w.exit)
            && match outcome
               case Commanded => w.log == [] && w.exit == Some(ByCommand)
               case Dropped => w.log == [] && w.exit == Some(ChannelClosed)
               case Failure(detail, recoverable, kind) =>
                 w.log == [Disconnected(account, recoverable, Some(detail), kind)] && w.exit == Some(ConnectFailed)
               case TimedOut =>
                 && w.exit == Some(ConnectFailed)
                 && var detail := "connection attempt " + "exceeded 30 seconds";
                    w.log == [Disconnected(account, true, Some(detail), NetworkLost)]
               case Ready(_) => w.log == [] && w.exit == None
  {
  }
}
