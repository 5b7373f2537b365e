/** Which accounts the gateway flushes: the set of accounts with pending work, over polls that run beside the user's own
    commands, and the exact circumstances in which a waiting message is left unscheduled. */
module GatewayOutbox {
  import opened Wrappers
  import opened Text
  import opened Domain
  import opened CoreState
  import opened CoreInvariant
  import opened CoreOutbox
  import opened CoreDelivery
  import opened CoreNumbering
  import opened Session

  /** How far a poll has come. */
  datatype Stage = Draining | Flushing(todo: set<nat>) | Snapped(onlineNow: set<nat>)

  /** A poll under way: the accounts it will flush and then drop, and those shown online when it began. */
  datatype Flight = Flight(accounts: set<nat>, onlineBefore: set<nat>, stage: Stage)

  /** `shown` are the accounts the published state shows online, `pending` those scheduled for the next flush. */
  datatype Gateway = Gateway(core: Core, shown: set<nat>, pending: set<nat>, flight: Option<Flight>)

  datatype Action =
    | QueueText(conversation: nat, body: string, inReplyTo: Option<nat>, now: nat, active: nat)
    | UserCommand(op: Op)
    | StartPoll
    | Drain(events: seq<TransportEvent>)
    | Flush(account: nat, sent: nat, failed: bool)
    | TakeSnapshot
    | EndPoll

  function OnlineIn(c: Core): set<nat> {
    set a | a in c.accounts && c.accounts[a].state == Online
  }

  ghost predicate Waits(c: Core, account: nat) {
    Outbox(c, account) != []
  }

  /** What the user can do besides sending text: nothing that brings an account online. */
  predicate IsUserCommand(op: Op) {
    && (IsLocal(op) || op.OpDeleteAccount? || (op.OpTransportEvent? && op.event.Disconnected?))
    && !op.OpSendText? && (op.OpSetConnectionState? ==> op.state != Online)
  }

  ghost predicate Enabled(g: Gateway, a: Action) {
    match a
    case QueueText(_, _, _, _, _) => true
    case UserCommand(op) => IsUserCommand(op)
    case StartPoll => g.flight.None?
    case Drain(_) => g.flight.Some? && g.flight.value.stage.Draining?
    case Flush(account, sent, failed) =>
      && g.flight.Some? && g.flight.value.stage.Flushing? && account in g.flight.value.stage.todo
      && FlushFits(g.core, account, sent, failed)
    case TakeSnapshot => g.flight.Some? && g.flight.value.stage == Flushing({})
    case EndPoll => g.flight.Some? && g.flight.value.stage.Snapped?
  }

  function AccountOf(c: Core, conversation: nat): nat {
    if conversation in c.conversations then c.conversations[conversation].account else 0
  }

  ghost function Step(g: Gateway, a: Action): Gateway
    requires Enabled(g, a)
  {
    match a
    case QueueText(conversation, body, inReplyTo, now, active) =>
      var queued := g.core.SendText(conversation, "", body, inReplyTo, now);
      if queued.result.Err? then g
      else Gateway(queued.core, OnlineIn(queued.core), g.pending + {active}, g.flight)
    case UserCommand(op) =>
      var core := Perform(g.core, op).core;
      g.(core := core, shown := OnlineIn(core))
    case StartPoll => g.(flight := Some(Flight(g.pending, g.shown, Draining)))
    case Drain(events) =>
      var core := RunOps(g.core, EventOps(events));
      var flight := g.flight.value;
      if events == [] && flight.accounts !! flight.onlineBefore then g.(core := core, flight := None)
      else g.(core := core, flight := Some(flight.(stage := Flushing(flight.accounts))))
    case Flush(account, sent, failed) =>
      var flight := g.flight.value;
      var after := flight.(stage := Flushing(flight.stage.todo - {account}));
      if account !in OnlineIn(g.core) then g.(flight := Some(after))
      else g.(core := RunOps(g.core, MarkOps(Outbox(g.core, account), sent, failed)), flight := Some(after))
    case TakeSnapshot => g.(flight := Some(g.flight.value.(stage := Snapped(OnlineIn(g.core)))))
    case EndPoll =>
      var flight := g.flight.value;
      var arrived := flight.stage.onlineNow - flight.onlineBefore;
      Gateway(g.core, flight.stage.onlineNow, g.pending - flight.accounts + arrived, None)
  }

  /** The stages of a poll: it takes the scheduled accounts with it, drains, flushes each of them that is online, once,
      looks who is online, and ends by dropping them and scheduling whoever came online meanwhile. A drain that brings
      nothing ends it unless one of them was shown online. */
  lemma StagesOfAPoll(g: Gateway, a: Action)
    requires Enabled(g, a) && !a.QueueText? && !a.UserCommand?
    ensures var h := Step(g, a);
            match a
            case StartPoll => h == g.(flight := Some(Flight(g.pending, g.shown, Draining)))
            case Drain(events) =>
              && h.core == RunOps(g.core, EventOps(events)) && h.shown == g.shown && h.pending == g.pending
              && var f := g.flight.value;
                 && (h.flight.None? <==>
                       events == [] && forall x :: !(x in f.accounts && x in f.onlineBefore))
                 && (h.flight.Some? ==> h.flight.value == Flight(f.accounts, f.onlineBefore, Flushing(f.accounts)))
            case Flush(account, sent, failed) =>
              var f := g.flight.value;
              var online := account in g.core.accounts && g.core.accounts[account].state == Online;
              && h == g.(core := h.core, flight := h.flight)
              && h.flight == Some(Flight(f.accounts, f.onlineBefore, Flushing(f.stage.todo - {account})))
              && (!online ==> h.core == g.core)
              && (online ==> h.core == RunOps(g.core, MarkOps(Outbox(g.core, account), sent, failed)))
            case TakeSnapshot =>
              && h == g.(flight := h.flight) && h.flight.Some?
              && var f := g.flight.value;
                 && h.flight.value == f.(stage := h.flight.value.stage) && h.flight.value.stage.Snapped?
                 && forall x :: x in h.flight.value.stage.onlineNow <==>
                                x in g.core.accounts && g.core.accounts[x].state == Online
            case EndPoll =>
              && h.core == g.core && h.flight == None
              && var f := g.flight.value;
                 && h.shown == f.stage.onlineNow
                 && forall x :: x in h.pending <==>
                                (x in g.pending && x !in f.accounts)
                                || (x in f.stage.onlineNow && x !in f.onlineBefore)
  {
    hide RunOps, MarkOps, EventOps;
  }

  /** A text that is accepted schedules the active account, whoever it is for; a refused one changes nothing. Other
      commands schedule nobody; after either the display shows who is online. */
  lemma UserSteps(g: Gateway, a: Action)
    requires a.QueueText? || (a.UserCommand? && IsUserCommand(a.op))
    ensures Enabled(g, a)
    ensures var h := Step(g, a);
            && h.flight == g.flight
            && (a.UserCommand? ==> h.core == Perform(g.core, a.op).core && h.pending == g.pending)
            && (a.QueueText? ==>
                  var r := g.core.SendText(a.conversation, "", a.body, a.inReplyTo, a.now);
                  && (r.result.Err? ==> h == g)
                  && (r.result.Ok? ==> h.core == r.core && h.pending == g.pending + {a.active}))
            && (a.UserCommand? || h != g ==>
                  forall x :: x in h.shown <==> x in h.core.accounts && h.core.accounts[x].state == Online)
  {
    hide Perform, Core.SendText;
  }

  // ----- what the core's operations do to waiting messages ----------------------------------------------

  lemma WaitsIffSomethingWaits(c: Core, account: nat)
    ensures Waits(c, account) <==> exists m :: c.Waiting(account, m)
  {
    hide Outbox;
    OutboxIsQueued(c, account);
    if m :| c.Waiting(account, m) {
      assert Listed(Outbox(c, account), m);
    }
    if Waits(c, account) {
      assert c.Waiting(account, Outbox(c, account)[0].message);
    }
  }

  /** Nothing new waits. */
  ghost predicate Quieter(c: Core, d: Core) {
    forall a: nat, m: nat :: d.Waiting(a, m) ==> c.Waiting(a, m)
  }

  lemma QuieterWaits(c: Core, d: Core, account: nat)
    requires Quieter(c, d)
    ensures Waits(d, account) ==> Waits(c, account)
  {
    hide Waits, Core.Waiting;
    WaitsIffSomethingWaits(c, account);
    WaitsIffSomethingWaits(d, account);
  }

  ghost predicate NewAreIncoming(c: Core, d: Core) {
    forall m :: m in d.messages && m !in c.messages ==> d.messages[m].direction == Incoming
  }

  lemma NothingNewWaits(c: Core, d: Core)
    requires Moored(c) && Succeeds(c, d) && Advances(c, d) && NewAreIncoming(c, d)
    ensures Quieter(c, d)
  {
    MooredIsNumbered(c);
    WaitingShrinks(c, d);
  }

  lemma EventBringsIncoming(c: Core, e: TransportEvent)
    ensures NewAreIncoming(c, c.ApplyTransportEvent(e).core)
  {
    hide CheckedBody, ValidJid, Split, Trim, ContactName, ContactStatus, Core.HasConversation;
    if e.IncomingText? {
      TextBringsIncoming(c, e);
    }
  }

  lemma TextBringsIncoming(c: Core, e: TransportEvent)
    requires e.IncomingText?
    ensures NewAreIncoming(c, c.ApplyTransportEvent(e).core)
  {
    hide CheckedBody, ValidJid, Split, Trim, Core.HasConversation;
  }

  lemma UserCommandBringsIncoming(c: Core, op: Op)
    requires IsUserCommand(op)
    ensures NewAreIncoming(c, Perform(c, op).core)
  {
    hide CheckedBody, ValidJid, ValidServer, Split, Trim, ContactName, ContactStatus, Core.HasConversation;
    if op.OpTransportEvent? {
      EventBringsIncoming(c, op.event);
    } else if op.OpReceiveText? {
      ReceivedIsIncoming(c, op.conversation, op.sender, op.body, op.now);
    } else {
      OtherCommandsBringNothing(c, op);
    }
  }

  lemma ReceivedIsIncoming(c: Core, conversation: nat, sender: string, body: string, now: nat)
    ensures NewAreIncoming(c, c.ReceiveText(conversation, sender, body, now).core)
  {
    hide CheckedBody;
  }

  lemma OtherCommandsBringNothing(c: Core, op: Op)
    requires IsUserCommand(op) && !op.OpTransportEvent? && !op.OpReceiveText?
    ensures forall m :: m in Perform(c, op).core.messages ==> m in c.messages
  {
    hide ValidJid, ValidServer, Split, Trim, ContactName, ContactStatus, Core.HasConversation;
  }

  lemma UserCommandIsQuiet(c: Core, op: Op)
    requires Inv(c) && IsUserCommand(op)
    ensures Quieter(c, Perform(c, op).core) && OnlineIn(Perform(c, op).core) <= OnlineIn(c)
  {
    hide Inv, Moored, Numbered, Succeeds, Advances, Perform, NewAreIncoming, Quieter, OnlineIn;
    InvIsMoored(c);
    InvIsNumbered(c);
    OpSucceeds(c, op);
    OpAdvances(c, op);
    UserCommandBringsIncoming(c, op);
    NothingNewWaits(c, Perform(c, op).core);
    UserCommandBringsNobodyOnline(c, op);
  }

  lemma UserCommandBringsNobodyOnline(c: Core, op: Op)
    requires IsUserCommand(op)
    ensures OnlineIn(Perform(c, op).core) <= OnlineIn(c)
  {
    hide ValidJid, ValidServer, Split, Trim, ContactName, ContactStatus, Core.HasConversation, CheckedBody;
    hide Core.CapabilityError;
  }

  lemma {:induction false} EventsAreQuiet(c: Core, events: seq<TransportEvent>)
    requires Inv(c)
    ensures Quieter(c, RunOps(c, EventOps(events)))
    decreases |events|
  {
    hide Inv, Moored, Numbered, Succeeds, Advances, Perform, NewAreIncoming, Core.Waiting;
    if events != [] {
      var op := OpTransportEvent(events[0]);
      var d := Perform(c, op).core;
      InvIsMoored(c);
      InvIsNumbered(c);
      OpSucceeds(c, op);
      OpAdvances(c, op);
      OpKeepsInv(c, op);
      EventPerforms(c, events[0]);
      EventBringsIncoming(c, events[0]);
      NothingNewWaits(c, d);
      EventsAreQuiet(d, events[1..]);
      assert EventOps(events)[0] == op && EventOps(events)[1..] == EventOps(events[1..]);
    }
  }

  lemma EventPerforms(c: Core, e: TransportEvent)
    ensures Perform(c, OpTransportEvent(e)).core == c.ApplyTransportEvent(e).core
  {
    hide Core.ApplyTransportEvent;
  }

  /** A flush only takes messages off the outbox, and empties it if it gets to the end. It puts nobody online. */
  lemma FlushIsQuiet(c: Core, account: nat, sent: nat, failed: bool)
    requires Inv(c)
    requires var q := Outbox(c, account); sent <= |q| && (failed ==> sent < |q|)
    ensures var d := RunOps(c, MarkOps(Outbox(c, account), sent, failed));
            && Inv(d) && Quieter(c, d) && d.accounts == c.accounts
            && (sent == |Outbox(c, account)| ==> !Waits(d, account))
  {
    hide Inv, Moored, Numbered, Outbox, RunOps, MarkOps, Marked, Advances, Succeeds, NewAreIncoming, Quieter;
    var q := Outbox(c, account);
    var d := RunOps(c, MarkOps(q, sent, failed));
    InvIsMoored(c);
    InvIsNumbered(c);
    FlushAdvances(c, account, sent, failed);
    RunSucceeds(c, MarkOps(q, sent, failed));
    RunKeepsInv(c, MarkOps(q, sent, failed));
    FlushKeepsTheRest(c, account, sent, failed);
    NothingNewWaits(c, d);
    WaitsIffSomethingWaits(d, account);
    if sent == |q| {
      forall m ensures !d.Waiting(account, m) {
        QuietAt(c, d, account, m);
        if c.Waiting(account, m) {
          ListedIsDone(c, account, sent, failed, m);
        }
      }
    }
  }

  lemma QuietAt(c: Core, d: Core, a: nat, m: nat)
    requires Quieter(c, d)
    ensures d.Waiting(a, m) ==> c.Waiting(a, m)
  {
  }

  lemma ListedIsDone(c: Core, account: nat, sent: nat, failed: bool, m: nat)
    requires Numbered(c) && c.Waiting(account, m)
    requires var q := Outbox(c, account); sent == |q| && !failed
    ensures !RunOps(c, MarkOps(Outbox(c, account), sent, failed)).Waiting(account, m)
  {
    hide Numbered, Outbox, RunOps, MarkOps, Core.Waiting;
    OutboxIsQueued(c, account);
    var q := Outbox(c, account);
    assert Listed(q, m);
    var i :| 0 <= i < |q| && q[i].message == m;
    FlushedIsDone(c, account, sent, failed, i);
  }

  lemma FlushKeepsTheRest(c: Core, account: nat, sent: nat, failed: bool)
    requires Numbered(c)
    requires var q := Outbox(c, account); sent <= |q| && (failed ==> sent < |q|)
    ensures var d := RunOps(c, MarkOps(Outbox(c, account), sent, failed));
            d.accounts == c.accounts && NewAreIncoming(c, d)
  {
    hide Outbox, RunOps, MarkOps, Marked;
    OutboxIsQueued(c, account);
    OutboxAscends(c, account);
    FlushEffect(c, Outbox(c, account), sent, failed);
  }

  /** A text queued waits for its conversation's account, and nobody else's outbox changes. */
  lemma QueuedTextWaitsForItsOwner(c: Core, conversation: nat, body: string, inReplyTo: Option<nat>, now: nat, a: nat)
    requires c.SendText(conversation, "", body, inReplyTo, now).result.Ok?
    ensures var d := c.SendText(conversation, "", body, inReplyTo, now).core;
            && OnlineIn(d) == OnlineIn(c)
            && (a != AccountOf(c, conversation) && Waits(d, a) ==> Waits(c, a))
  {
    hide CheckedBody, Waits, OnlineIn;
    var d := c.SendText(conversation, "", body, inReplyTo, now).core;
    assert d.accounts == c.accounts;
    OnlineReadsAccounts(c, d);
    WaitsIffSomethingWaits(c, a);
    WaitsIffSomethingWaits(d, a);
    if m :| a != AccountOf(c, conversation) && d.Waiting(a, m) {
      assert m != FreshId(c.nextMessage);
      assert c.Waiting(a, m);
    }
  }

  lemma OnlineReadsAccounts(c: Core, d: Core)
    requires c.accounts == d.accounts
    ensures OnlineIn(c) == OnlineIn(d)
  {
  }

  // ----- being stranded ---------------------------------------------------------------------------------------

  /** The accounts a step may leave with something to send and nobody to send it: a text is queued for the account of
      its conversation, and a poll drops what it flushed, whether or not something still waits. */
  ghost function Lost(g: Gateway, a: Action): set<nat>
    requires Enabled(g, a)
  {
    match a
    case QueueText(conversation, body, inReplyTo, now, _) =>
      if g.core.SendText(conversation, "", body, inReplyTo, now).result.Err? then {}
      else {AccountOf(g.core, conversation)}
    case EndPoll => set b | b in g.flight.value.accounts && Waits(g.core, b)
    case _ => {}
  }

  /** The step leaves `b` off the schedule: the text was queued while another account was active, or the poll dropped
      `b` while something waited, and `b` had not just come online. */
  ghost predicate Strands(g: Gateway, a: Action, b: nat)
    requires Enabled(g, a)
  {
    b in Lost(g, a) && b !in Step(g, a).pending
  }

  ghost predicate StaysOff(g: Gateway, actions: seq<Action>, b: nat)
    requires IsRun(g, actions)
    decreases |actions|
  {
    b !in g.pending && (actions != [] ==> StaysOff(Step(g, actions[0]), actions[1..], b))
  }

  /** Some step of the run strands `b`, and it is not scheduled since. */
  ghost predicate Stranded(g: Gateway, actions: seq<Action>, b: nat)
    requires IsRun(g, actions)
    decreases |actions|
  {
    actions != [] &&
    var next := Step(g, actions[0]);
    (Strands(g, actions[0], b) && StaysOff(next, actions[1..], b)) || Stranded(next, actions[1..], b)
  }

  ghost function LeftAfter(g: Gateway, a: Action, left: set<nat>): set<nat>
    requires Enabled(g, a)
  {
    left + Lost(g, a) - Step(g, a).pending
  }

  // ----- the invariant ----------------------------------------------------------------------------------------

  /** Accounts the gateway counts on having scheduled: those shown online, now or when the poll under way began. */
  function Watched(g: Gateway): set<nat> {
    g.shown + if g.flight.Some? then g.flight.value.onlineBefore else {}
  }

  /** A poll under way will schedule the accounts it finds newly online. */
  predicate Arriving(g: Gateway, a: nat) {
    g.flight.Some? && a !in g.flight.value.onlineBefore
  }

  /** Every watched account with something to send is scheduled, about to be, or one of those left. */
  ghost predicate Accounted(g: Gateway, left: set<nat>) {
    && Inv(g.core)
    && (forall a :: a in Watched(g) && Waits(g.core, a) && a !in g.pending ==> a in left || Arriving(g, a))
    && left !! g.pending
    && FlightIsRight(g)
  }

  ghost predicate FlightIsRight(g: Gateway) {
    match g.flight
    case None => OnlineIn(g.core) <= g.shown
    case Some(flight) =>
      && flight.accounts <= g.pending
      && match flight.stage
         case Draining => OnlineIn(g.core) <= g.shown <= flight.onlineBefore
         case Flushing(todo) => todo <= flight.accounts
         case Snapped(onlineNow) => OnlineIn(g.core) <= onlineNow
  }

  lemma UserCommandIsAccounted(g: Gateway, op: Op, left: set<nat>)
    requires Accounted(g, left) && IsUserCommand(op)
    ensures Accounted(Step(g, UserCommand(op)), LeftAfter(g, UserCommand(op), left))
  {
    hide Inv, Waits, Perform, OnlineIn, Quieter;
    var d := Perform(g.core, op).core;
    OpKeepsInv(g.core, op);
    UserCommandIsQuiet(g.core, op);
    forall a ensures Waits(d, a) ==> Waits(g.core, a) {
      QuieterWaits(g.core, d, a);
    }
  }

  lemma QueueTextIsAccounted(g: Gateway, a: Action, left: set<nat>)
    requires Accounted(g, left) && a.QueueText?
    ensures Accounted(Step(g, a), LeftAfter(g, a, left))
  {
    hide Inv, Waits, OnlineIn, Core.SendText;
    var queued := g.core.SendText(a.conversation, "", a.body, a.inReplyTo, a.now);
    SendTextKeepsInv(g.core, a.conversation, "", a.body, a.inReplyTo, a.now);
    if queued.result.Ok? {
      QueuedTextWaitsForItsOwner(g.core, a.conversation, a.body, a.inReplyTo, a.now, 0);
      forall b ensures b != AccountOf(g.core, a.conversation) && Waits(queued.core, b) ==> Waits(g.core, b) {
        QueuedTextWaitsForItsOwner(g.core, a.conversation, a.body, a.inReplyTo, a.now, b);
      }
    }
  }

  lemma DrainIsAccounted(g: Gateway, events: seq<TransportEvent>, left: set<nat>)
    requires Accounted(g, left) && Enabled(g, Drain(events))
    ensures Accounted(Step(g, Drain(events)), LeftAfter(g, Drain(events), left))
  {
    hide Inv, Waits, OnlineIn, RunOps, Quieter;
    var d := RunOps(g.core, EventOps(events));
    RunKeepsInv(g.core, EventOps(events));
    EventsAreQuiet(g.core, events);
    forall a ensures Waits(d, a) ==> Waits(g.core, a) {
      QuieterWaits(g.core, d, a);
    }
    if events == [] {
      RunNothing(g.core);
    }
  }

  lemma RunNothing(c: Core)
    ensures RunOps(c, EventOps([])) == c
  {
  }

  lemma FlushIsAccounted(g: Gateway, a: Action, left: set<nat>)
    requires Accounted(g, left) && a.Flush? && Enabled(g, a)
    ensures Accounted(Step(g, a), LeftAfter(g, a, left))
  {
    hide Inv, Outbox, OnlineIn, RunOps, Quieter, MarkOps;
    if a.account in OnlineIn(g.core) {
      var d := RunOps(g.core, MarkOps(Outbox(g.core, a.account), a.sent, a.failed));
      FlushIsQuiet(g.core, a.account, a.sent, a.failed);
      OnlineReadsAccounts(g.core, d);
      forall b ensures Waits(d, b) ==> Waits(g.core, b) {
        QuieterWaits(g.core, d, b);
      }
    }
  }

  lemma PollBoundsAreAccounted(g: Gateway, a: Action, left: set<nat>)
    requires Accounted(g, left) && Enabled(g, a) && (a.StartPoll? || a.TakeSnapshot? || a.EndPoll?)
    ensures Accounted(Step(g, a), LeftAfter(g, a, left))
  {
    hide Inv, Waits, OnlineIn;
  }

  lemma StepIsAccounted(g: Gateway, a: Action, left: set<nat>)
    requires Accounted(g, left) && Enabled(g, a)
    ensures Accounted(Step(g, a), LeftAfter(g, a, left))
  {
    hide Accounted, Step, LeftAfter;
    match a
    case QueueText(_, _, _, _, _) => QueueTextIsAccounted(g, a, left);
    case UserCommand(op) => UserCommandIsAccounted(g, op, left);
    case Drain(events) => DrainIsAccounted(g, events, left);
    case Flush(_, _, _) => FlushIsAccounted(g, a, left);
    case _ => PollBoundsAreAccounted(g, a, left);
  }

  ghost predicate IsRun(g: Gateway, actions: seq<Action>)
    decreases |actions|
  {
    actions != [] ==> Enabled(g, actions[0]) && IsRun(Step(g, actions[0]), actions[1..])
  }

  ghost function Final(g: Gateway, actions: seq<Action>): Gateway
    requires IsRun(g, actions)
    decreases |actions|
  {
    if actions == [] then g else Final(Step(g, actions[0]), actions[1..])
  }

  ghost function LeftAfterRun(g: Gateway, actions: seq<Action>, left: set<nat>): set<nat>
    requires IsRun(g, actions)
    decreases |actions|
  {
    if actions == [] then left
    else LeftAfterRun(Step(g, actions[0]), actions[1..], LeftAfter(g, actions[0], left))
  }

  lemma {:induction false} LeftIsAccounted(g: Gateway, actions: seq<Action>, left: set<nat>)
    requires Accounted(g, left) && IsRun(g, actions)
    ensures Accounted(Final(g, actions), LeftAfterRun(g, actions, left))
    decreases |actions|
  {
    hide Accounted, Enabled, Step, LeftAfter;
    if actions != [] {
      StepIsAccounted(g, actions[0], left);
      LeftIsAccounted(Step(g, actions[0]), actions[1..], LeftAfter(g, actions[0], left));
    }
  }

  lemma {:induction false} LeftIsStranded(g: Gateway, actions: seq<Action>, left: set<nat>, b: nat)
    requires IsRun(g, actions) && left !! g.pending
    ensures b in LeftAfterRun(g, actions, left) <==> Stranded(g, actions, b) || (b in left && StaysOff(g, actions, b))
    decreases |actions|
  {
    hide Enabled, Step, Lost;
    if actions != [] {
      LeftIsStranded(Step(g, actions[0]), actions[1..], LeftAfter(g, actions[0], left), b);
    }
  }

  // ----- who is left unscheduled -----------------------------------------------------------------------------

  /** Shown online with something to send, and not scheduled to be flushed. */
  ghost predicate Unscheduled(g: Gateway, a: nat) {
    a in g.shown && Waits(g.core, a) && a !in g.pending
  }

  /** A gateway that has just restored its core: nobody is online yet. */
  function Started(c: Core): Gateway {
    Gateway(c, {}, {}, None)
  }

  /** Through every run, each watched account with something to send is scheduled, about to be scheduled by the poll
      under way, or was stranded by a step of the run and has not been scheduled since. */
  lemma RunIsAccounted(c: Core, actions: seq<Action>, a: nat)
    requires Inv(c) && OnlineIn(c) == {} && IsRun(Started(c), actions)
    ensures var g := Final(Started(c), actions);
            a in Watched(g) && Waits(g.core, a) ==>
              a in g.pending || Arriving(g, a) || Stranded(Started(c), actions, a)
    ensures Stranded(Started(c), actions, a) ==> a !in Final(Started(c), actions).pending
  {
    hide IsRun, Final, Inv, Stranded, StaysOff, LeftAfterRun, Waits;
    LeftIsAccounted(Started(c), actions, {});
    LeftIsStranded(Started(c), actions, {}, a);
  }

  /** In every run, between polls, a waiting message of an online account is unscheduled if and only if some step
      stranded the account, a poll dropping it while something waited or a text queued for it while another account was
      active, and it has not been scheduled since. */
  lemma UnscheduledIffStranded(c: Core, actions: seq<Action>, a: nat)
    requires Inv(c) && OnlineIn(c) == {}
    requires IsRun(Started(c), actions) && Final(Started(c), actions).flight.None?
    ensures var g := Final(Started(c), actions);
            Unscheduled(g, a) <==> a in g.shown && Waits(g.core, a) && Stranded(Started(c), actions, a)
  {
    hide IsRun, Final, Inv, Stranded, Waits;
    RunIsAccounted(c, actions, a);
  }

  /** What a finishing poll does to an account it had scheduled: it is left unscheduled exactly if it was shown online
      before, is online in the snapshot, and something still waits. */
  lemma EndOfPollStrands(g: Gateway, a: nat)
    requires Enabled(g, EndPoll) && a in g.flight.value.accounts
    ensures var flight := g.flight.value;
            Unscheduled(Step(g, EndPoll), a) <==>
            a in flight.onlineBefore && a in flight.stage.onlineNow && Waits(g.core, a)
  {
    hide Waits;
  }

  /** What a text does to the account of its conversation: it is left unscheduled exactly if it is online, not
      scheduled already, and not the active account. */
  lemma ATextForAnotherAccountStrands(g: Gateway, conversation: nat, body: string, inReplyTo: Option<nat>, now: nat,
                                      active: nat)
    requires Numbered(g.core) && g.core.SendText(conversation, "", body, inReplyTo, now).result.Ok?
    ensures var owner := AccountOf(g.core, conversation);
            Unscheduled(Step(g, QueueText(conversation, body, inReplyTo, now, active)), owner) <==>
            owner in OnlineIn(g.core) && owner !in g.pending && owner != active
  {
    hide Waits, OnlineIn, Numbered, CheckedBody;
    var d := g.core.SendText(conversation, "", body, inReplyTo, now).core;
    QueuedTextWaitsForItsOwner(g.core, conversation, body, inReplyTo, now, 0);
    QueuedTextWaits(g.core, conversation, body, inReplyTo, now);
  }

  lemma QueuedTextWaits(c: Core, conversation: nat, body: string, inReplyTo: Option<nat>, now: nat)
    requires c.SendText(conversation, "", body, inReplyTo, now).result.Ok?
    ensures Waits(c.SendText(conversation, "", body, inReplyTo, now).core, AccountOf(c, conversation))
  {
    hide CheckedBody, Waits;
    var d := c.SendText(conversation, "", body, inReplyTo, now).core;
    WaitsIffSomethingWaits(d, AccountOf(c, conversation));
    assert d.Waiting(AccountOf(c, conversation), FreshId(c.nextMessage));
  }

  // ----- why something still waits ---------------------------------------------------------------------------

  /** The step queues a text for `b`. */
  ghost predicate Queues(g: Gateway, a: Action, b: nat) {
    && a.QueueText? && g.core.SendText(a.conversation, "", a.body, a.inReplyTo, a.now).result.Ok?
    && AccountOf(g.core, a.conversation) == b
  }

  ghost predicate QueuedFor(g: Gateway, actions: seq<Action>, b: nat)
    requires IsRun(g, actions)
    decreases |actions|
  {
    actions != [] && (Queues(g, actions[0], b) || QueuedFor(Step(g, actions[0]), actions[1..], b))
  }

  /** The flush of `b` found it offline, did not reach the end of its outbox, or was followed by a text for it. */
  ghost predicate FellShort(g: Gateway, actions: seq<Action>, b: nat)
    requires IsRun(g, actions)
    decreases |actions|
  {
    actions != [] &&
    var next := Step(g, actions[0]);
    if actions[0].Flush? && actions[0].account == b then
      b !in OnlineIn(g.core) || actions[0].sent < |Outbox(g.core, b)| || QueuedFor(next, actions[1..], b)
    else FellShort(next, actions[1..], b)
  }

  predicate ToFlush(g: Gateway, b: nat) {
    && g.flight.Some? && b in g.flight.value.accounts
    && (g.flight.value.stage.Draining? || (g.flight.value.stage.Flushing? && b in g.flight.value.stage.todo))
  }

  predicate WithinOnePoll(actions: seq<Action>) {
    forall i :: 0 <= i < |actions| ==> !actions[i].StartPoll? && !actions[i].EndPoll?
  }

  lemma StepKeepsInv(g: Gateway, a: Action)
    requires Inv(g.core) && Enabled(g, a)
    ensures Inv(Step(g, a).core)
  {
    hide Inv, Outbox, RunOps, MarkOps, EventOps, Perform, Core.SendText;
    match a
    case QueueText(conversation, body, inReplyTo, now, _) =>
      SendTextKeepsInv(g.core, conversation, "", body, inReplyTo, now);
    case UserCommand(op) => OpKeepsInv(g.core, op);
    case Drain(events) => RunKeepsInv(g.core, EventOps(events));
    case Flush(account, sent, failed) => RunKeepsInv(g.core, MarkOps(Outbox(g.core, account), sent, failed));
    case _ =>
  }

  /** Only a text queued for it gives an account something to send. */
  lemma OnlyTextsMakeItWait(g: Gateway, a: Action, b: nat)
    requires Inv(g.core) && Enabled(g, a) && Waits(Step(g, a).core, b)
    ensures Waits(g.core, b) || Queues(g, a, b)
  {
    hide Inv, Waits, Outbox, RunOps, MarkOps, EventOps, Perform, Quieter, Core.SendText;
    var d := Step(g, a).core;
    match a
    case QueueText(conversation, body, inReplyTo, now, _) =>
      if g.core.SendText(conversation, "", body, inReplyTo, now).result.Ok? {
        QueuedTextWaitsForItsOwner(g.core, conversation, body, inReplyTo, now, b);
      }
    case UserCommand(op) =>
      UserCommandIsQuiet(g.core, op);
      QuieterWaits(g.core, d, b);
    case Drain(events) =>
      EventsAreQuiet(g.core, events);
      QuieterWaits(g.core, d, b);
    case Flush(account, sent, failed) =>
      if account in OnlineIn(g.core) {
        FlushIsQuiet(g.core, account, sent, failed);
        QuieterWaits(g.core, d, b);
      }
    case _ =>
  }

  lemma {:induction false} WaitsAgainOnlyAfterAText(g: Gateway, actions: seq<Action>, b: nat)
    requires Inv(g.core) && IsRun(g, actions) && !Waits(g.core, b) && Waits(Final(g, actions).core, b)
    ensures QueuedFor(g, actions, b)
    decreases |actions|
  {
    hide Inv, Waits, Enabled, Step, Queues;
    if actions != [] {
      StepKeepsInv(g, actions[0]);
      if Waits(Step(g, actions[0]).core, b) {
        OnlyTextsMakeItWait(g, actions[0], b);
      } else {
        WaitsAgainOnlyAfterAText(Step(g, actions[0]), actions[1..], b);
      }
    }
  }

  lemma FullFlushEmpties(g: Gateway, a: Action)
    requires Inv(g.core) && Enabled(g, a) && a.Flush?
    requires a.account in OnlineIn(g.core) && a.sent == |Outbox(g.core, a.account)|
    ensures !Waits(Step(g, a).core, a.account)
  {
    hide Inv, Outbox, RunOps, MarkOps, OnlineIn, Quieter;
    FlushIsQuiet(g.core, a.account, a.sent, a.failed);
  }

  lemma FlightGoesOn(g: Gateway, a: Action, b: nat)
    requires Enabled(g, a) && !a.StartPoll? && !a.EndPoll?
    ensures g.flight.None? ==> Step(g, a).flight.None?
    ensures ToFlush(g, b) && !(a.Flush? && a.account == b) ==> ToFlush(Step(g, a), b) || Step(g, a).flight.None?
  {
    hide OnlineIn, Outbox, RunOps, MarkOps, EventOps, Perform, Core.SendText;
  }

  lemma {:induction false} NoFlightNoSnapshot(g: Gateway, actions: seq<Action>)
    requires IsRun(g, actions) && WithinOnePoll(actions) && g.flight.None?
    ensures Final(g, actions).flight.None?
    decreases |actions|
  {
    hide Enabled, Step;
    if actions != [] {
      FlightGoesOn(g, actions[0], 0);
      NoFlightNoSnapshot(Step(g, actions[0]), actions[1..]);
    }
  }

  /** If something still waits for an account once a poll has taken its snapshot, the flush of that account in this poll
      found it offline, stopped before the end of its outbox, or was followed by another text. */
  lemma {:induction false} WhatStillWaitsFellShort(g: Gateway, actions: seq<Action>, b: nat)
    requires Inv(g.core) && IsRun(g, actions) && WithinOnePoll(actions) && ToFlush(g, b)
    requires var end := Final(g, actions); end.flight.Some? && end.flight.value.stage.Snapped? && Waits(end.core, b)
    ensures FellShort(g, actions, b)
    decreases |actions|
  {
    hide Inv, Waits, Enabled, Step, OnlineIn, Outbox;
    assert actions != [];
    var a, next, rest := actions[0], Step(g, actions[0]), actions[1..];
    StepKeepsInv(g, a);
    if a.Flush? && a.account == b {
      FlushIsWithinTheOutbox(g, a);
      if b in OnlineIn(g.core) && a.sent == |Outbox(g.core, b)| {
        FullFlushEmpties(g, a);
        WaitsAgainOnlyAfterAText(next, rest, b);
      }
    } else {
      FlightGoesOn(g, a, b);
      if next.flight.None? {
        NoFlightNoSnapshot(next, rest);
        assert false;
      }
      WhatStillWaitsFellShort(next, rest, b);
    }
  }

  lemma FlushIsWithinTheOutbox(g: Gateway, a: Action)
    requires Enabled(g, a) && a.Flush?
    ensures a.sent <= |Outbox(g.core, a.account)|
  {
    hide Outbox;
  }

  // ----- a refused send ----------------------------------------------------------------------------------------

  function RefusedPoll(a: nat): seq<Action> {
    [StartPoll, Drain([]), Flush(a, 0, true), TakeSnapshot, EndPoll]
  }

  /** An account scheduled, online, and refused its first send is dropped with the message still waiting. */
  lemma ARefusalLeavesTheMessage(g: Gateway, a: nat)
    requires Inv(g.core) && g.flight.None? && g.pending == {a} && a in g.shown
    requires a in OnlineIn(g.core) && Waits(g.core, a)
    ensures IsRun(g, RefusedPoll(a)) && Unscheduled(Final(g, RefusedPoll(a)), a)
    ensures Final(g, RefusedPoll(a)).flight.None?
  {
    hide Inv, OnlineIn, Outbox, RunOps, MarkOps, Waits, IsRun, Final, Enabled, Step;
    var poll := RefusedPoll(a);
    var g1 := g.(flight := Some(Flight({a}, g.shown, Draining)));
    var g2 := g.(flight := Some(Flight({a}, g.shown, Flushing({a}))));
    RefusedFlush(g, a);
    var d := RunOps(g.core, MarkOps(Outbox(g.core, a), 0, true));
    var g3 := Gateway(d, g.shown, {a}, Some(Flight({a}, g.shown, Flushing({}))));
    RefusedStillWaits(g.core, a);
    FlushIsQuiet(g.core, a, 0, true);
    OnlineReadsAccounts(g.core, d);
    EndOfRefusal(g3, a);
    assert poll[1..][1..][1..] == [TakeSnapshot, EndPoll];
    assert poll[1..][0] == Drain([]) && poll[1..][1..][0] == Flush(a, 0, true);
    RunOneMore(g2, poll[1..][1..]);
    RunOneMore(g1, poll[1..]);
    RunOneMore(g, poll);
  }

  lemma RefusedFlush(g: Gateway, a: nat)
    requires g.flight.None? && g.pending == {a} && a in g.shown && a in OnlineIn(g.core) && Waits(g.core, a)
    ensures var g1 := g.(flight := Some(Flight({a}, g.shown, Draining)));
            var g2 := g.(flight := Some(Flight({a}, g.shown, Flushing({a}))));
            && Enabled(g, StartPoll) && Step(g, StartPoll) == g1
            && Enabled(g1, Drain([])) && Step(g1, Drain([])) == g2
            && Outbox(g.core, a) != [] && Enabled(g2, Flush(a, 0, true))
            && Step(g2, Flush(a, 0, true)) ==
               Gateway(RunOps(g.core, MarkOps(Outbox(g.core, a), 0, true)), g.shown, {a},
                       Some(Flight({a}, g.shown, Flushing({}))))
  {
    hide OnlineIn, Outbox, RunOps, MarkOps;
    RunNothing(g.core);
    assert {a} - {a} == {};
  }

  lemma EndOfRefusal(g: Gateway, a: nat)
    requires g.pending == {a} && g.flight == Some(Flight({a}, g.shown, Flushing({})))
    requires a in g.shown && a in OnlineIn(g.core) && Waits(g.core, a)
    ensures IsRun(g, [TakeSnapshot, EndPoll]) && Unscheduled(Final(g, [TakeSnapshot, EndPoll]), a)
    ensures Final(g, [TakeSnapshot, EndPoll]).flight.None?
  {
    hide OnlineIn, Waits;
    var poll := [TakeSnapshot, EndPoll];
    assert poll[1..][1..] == [];
    RunOneMore(Step(g, TakeSnapshot), poll[1..]);
    RunOneMore(g, poll);
  }

  lemma RunOneMore(g: Gateway, actions: seq<Action>)
    requires actions != [] && Enabled(g, actions[0]) && IsRun(Step(g, actions[0]), actions[1..])
    ensures IsRun(g, actions) && Final(g, actions) == Final(Step(g, actions[0]), actions[1..])
  {
  }

  /** A refused message waits on: failed messages are retried. */
  lemma RefusedStillWaits(c: Core, a: nat)
    requires Inv(c) && Waits(c, a)
    ensures var d := RunOps(c, MarkOps(Outbox(c, a), 0, true)); Waits(d, a)
  {
    hide Inv, Outbox, RunOps;
    var q := Outbox(c, a);
    OutboxIsQueued(c, a);
    var m := q[0].message;
    RunOne(c, OpSetDeliveryState(m, SendFailed));
    assert MarkOps(q, 0, true) == [OpSetDeliveryState(m, SendFailed)];
    FlushStep(c, m, SendFailed);
    WaitsIffSomethingWaits(RunOps(c, MarkOps(q, 0, true)), a);
    assert RunOps(c, MarkOps(q, 0, true)).Waiting(a, m);
  }

  // ----- from a restart to a stranded message --------------------------------------------------------------------

  lemma {:induction false} RunConcat(g: Gateway, first: seq<Action>, second: seq<Action>)
    requires IsRun(g, first) && IsRun(Final(g, first), second)
    ensures IsRun(g, first + second) && Final(g, first + second) == Final(Final(g, first), second)
    decreases |first|
  {
    hide Enabled, Step;
    if first == [] {
      assert first + second == second;
    } else {
      assert (first + second)[1..] == first[1..] + second;
      RunConcat(Step(g, first[0]), first[1..], second);
    }
  }

  function ConnectingPoll(a: nat, capabilities: set<Capability>): seq<Action> {
    [StartPoll, Drain([Connected(a, capabilities)]), TakeSnapshot, EndPoll]
  }

  lemma OneEvent(c: Core, e: TransportEvent)
    ensures RunOps(c, EventOps([e])) == c.ApplyTransportEvent(e).core
  {
    hide Core.ApplyTransportEvent, RunOps;
    assert [e][1..] == [];
    assert EventOps([e]) == [OpTransportEvent(e)];
    RunOne(c, OpTransportEvent(e));
  }

  lemma ConnectedAloneIsOnline(c: Core, a: nat, capabilities: set<Capability>)
    requires OnlineIn(c) == {} && a in c.accounts
    ensures var d := c.ApplyConnected(a, capabilities).core;
            OnlineIn(d) == {a} && d.messages == c.messages && d.conversations == c.conversations
  {
    var d := c.ApplyConnected(a, capabilities).core;
    forall b ensures b in OnlineIn(d) <==> b == a {
      assert b !in OnlineIn(c);
    }
  }

  lemma SameTalkWaits(c: Core, d: Core, account: nat)
    requires d.messages == c.messages && d.conversations == c.conversations && Waits(c, account)
    ensures Waits(d, account)
  {
    hide Waits;
    WaitsIffSomethingWaits(c, account);
    WaitsIffSomethingWaits(d, account);
    var m :| c.Waiting(account, m);
    assert d.Waiting(account, m);
  }

  /** Coming online brings nothing but the account's own state. */
  lemma ConnectingOnlyShows(c: Core, a: nat, capabilities: set<Capability>)
    requires Inv(c) && OnlineIn(c) == {} && a in c.accounts && Waits(c, a)
    ensures var d := RunOps(c, EventOps([Connected(a, capabilities)]));
            Inv(d) && OnlineIn(d) == {a} && Waits(d, a)
  {
    hide Inv, Waits, OnlineIn, RunOps, EventOps, Core.ApplyConnected;
    var e := Connected(a, capabilities);
    OneEvent(c, e);
    RunKeepsInv(c, EventOps([e]));
    ConnectedAloneIsOnline(c, a, capabilities);
    SameTalkWaits(c, c.ApplyConnected(a, capabilities).core, a);
  }

  lemma ConnectingSchedules(c: Core, a: nat, capabilities: set<Capability>)
    requires Inv(c) && OnlineIn(c) == {} && a in c.accounts && Waits(c, a)
    ensures var d := RunOps(c, EventOps([Connected(a, capabilities)]));
            && IsRun(Started(c), ConnectingPoll(a, capabilities))
            && Final(Started(c), ConnectingPoll(a, capabilities)) == Gateway(d, {a}, {a}, None)
  {
    hide Inv, Waits, RunOps, EventOps, OnlineIn, IsRun, Final;
    var poll := ConnectingPoll(a, capabilities);
    ConnectingOnlyShows(c, a, capabilities);
    var d := RunOps(c, EventOps([Connected(a, capabilities)]));
    var g := Started(c);
    var g1 := g.(flight := Some(Flight({}, {}, Draining)));
    var g2 := g.(core := d, flight := Some(Flight({}, {}, Flushing({}))));
    var g3 := g.(core := d, flight := Some(Flight({}, {}, Snapped({a}))));
    var g4 := Gateway(d, {a}, {a}, None);
    assert poll[1..][1..][1..][1..] == [];
    assert poll[1..][0] == Drain([Connected(a, capabilities)]) && poll[1..][1..][0] == TakeSnapshot;
    assert poll[1..][1..][1..][0] == EndPoll;
    NothingMore(g4);
    assert Step(g, StartPoll) == g1 && Step(g2, TakeSnapshot) == g3;
    assert Step(g1, poll[1..][0]) == g2;
    assert Step(g3, EndPoll) == g4;
    RunOneMore(g3, poll[1..][1..][1..]);
    RunOneMore(g2, poll[1..][1..]);
    RunOneMore(g1, poll[1..]);
    RunOneMore(g, poll);
  }

  lemma NothingMore(g: Gateway)
    ensures IsRun(g, []) && Final(g, []) == g
  {
  }

  /** From a restart with a message in the outbox of any one account: the account comes online, its first send is
      refused, and the message is stranded. */
  lemma ARestoredMessageCanBeStranded(c: Core, a: nat, capabilities: set<Capability>)
    requires Inv(c) && OnlineIn(c) == {} && a in c.accounts && Waits(c, a)
    ensures var run := ConnectingPoll(a, capabilities) + RefusedPoll(a);
            && IsRun(Started(c), run) && Unscheduled(Final(Started(c), run), a)
            && Stranded(Started(c), run, a)
  {
    hide Inv, Waits, RunOps, EventOps, OnlineIn, IsRun, Final, Stranded;
    ConnectingOnlyShows(c, a, capabilities);
    ConnectingSchedules(c, a, capabilities);
    var g := Final(Started(c), ConnectingPoll(a, capabilities));
    ARefusalLeavesTheMessage(g, a);
    RunConcat(Started(c), ConnectingPoll(a, capabilities), RefusedPoll(a));
    UnscheduledIffStranded(c, ConnectingPoll(a, capabilities) + RefusedPoll(a), a);
  }
}
