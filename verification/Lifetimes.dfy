/** What a lifetime of the core keeps whatever file it was loaded from, and what it keeps only for some. */
module Lifetimes {
  import opened Wrappers
  import opened Domain
  import opened Ordering
  import opened CoreState
  import opened CoreInvariant
  import opened CoreOutbox
  import opened CoreDelivery
  import opened CoreSnapshot
  import opened CoreNumbering
  import opened Session

  // ----- at most once --------------------------------------------------------------------------------------

  ghost predicate NeverTwice(wire: seq<OutgoingMessage>) {
    forall i, j :: 0 <= i < j < |wire| ==> wire[i].message != wire[j].message
  }

  /** Given out, and no longer to be sent. */
  ghost predicate Done(c: Core, m: nat) {
    m < c.nextMessage && (m in c.messages ==> !Queued(c.messages[m]))
  }

  ghost predicate SentOnce(s: Session) {
    NeverTwice(s.wire) && forall i :: 0 <= i < |s.wire| ==> Done(s.core, s.wire[i].message)
  }

  lemma StaysDone(c: Core, d: Core, m: nat)
    requires Succeeds(c, d) && Advances(c, d) && Done(c, m)
    ensures Done(d, m)
  {
    if m in d.messages && Queued(d.messages[m]) {
      QueuedShrinks(c, d, m);
    }
  }

  lemma QuietCommandSendsNothing(s: Session, t: Session)
    requires Succeeds(s.core, t.core) && Advances(s.core, t.core) && t.wire == s.wire && SentOnce(s)
    ensures SentOnce(t)
  {
    hide Succeeds, Advances, Done;
    forall i | 0 <= i < |t.wire| ensures Done(t.core, t.wire[i].message) {
      StaysDone(s.core, t.core, s.wire[i].message);
    }
  }

  /** What a flush sends was waiting, and is done with. */
  lemma FlushedOnce(c: Core, account: nat, sent: nat, failed: bool, i: nat)
    requires Numbered(c)
    requires var q := Outbox(c, account); i < sent <= |q| && (failed ==> sent < |q|)
    ensures var m := Outbox(c, account)[i].message;
            !Done(c, m) && Done(RunOps(c, MarkOps(Outbox(c, account), sent, failed)), m)
  {
    hide RunOps, MarkOps, Outbox;
    var q := Outbox(c, account);
    OutboxIsQueued(c, account);
    OutboxAscends(c, account);
    FlushEffect(c, q, sent, failed);
    assert q[..sent][i].message == q[i].message;
    assert Listed(q[..sent], q[i].message);
  }

  lemma FlushSendsOnce(s: Session, account: nat, sent: nat, failed: bool)
    requires Numbered(s.core) && Enabled(s, FlushOutbox(account, sent, failed)) && SentOnce(s)
    ensures SentOnce(Exec(s, FlushOutbox(account, sent, failed)))
  {
    hide Numbered, Succeeds, Advances, RunOps, MarkOps, Outbox, Enabled, Exec, CoreAfter, Done;
    var cmd := FlushOutbox(account, sent, failed);
    FlushExec(s, account, sent, failed);
    CommandSucceeds(s, cmd);
    CommandAdvances(s, cmd);
    var q := Outbox(s.core, account);
    var t := Exec(s, cmd);
    OutboxAscends(s.core, account);
    forall i | 0 <= i < |t.wire| ensures Done(t.core, t.wire[i].message) {
      if i < |s.wire| {
        StaysDone(s.core, t.core, s.wire[i].message);
      } else {
        FlushedOnce(s.core, account, sent, failed, i - |s.wire|);
      }
    }
    forall i, j | 0 <= i < j < |t.wire| ensures t.wire[i].message != t.wire[j].message {
      if |s.wire| <= j {
        FlushedOnce(s.core, account, sent, failed, j - |s.wire|);
      }
      if |s.wire| <= i {
        assert NatLess(EnvelopeKey(q[i - |s.wire|]), EnvelopeKey(q[j - |s.wire|]));
      }
    }
  }

  lemma CommandSendsOnce(s: Session, cmd: Command)
    requires Numbered(s.core) && Enabled(s, cmd) && !cmd.LoadState? && SentOnce(s)
    ensures SentOnce(Exec(s, cmd))
  {
    hide Numbered, Advances, Succeeds, SentOnce, CoreAfter;
    if cmd.FlushOutbox? {
      FlushSendsOnce(s, cmd.account, cmd.sent, cmd.failed);
    } else {
      CommandSucceeds(s, cmd);
      CommandAdvances(s, cmd);
      QuietCommandSendsNothing(s, Exec(s, cmd));
    }
  }

  /** No message is accepted twice, however damaged the file the lifetime began with. */
  lemma {:induction false} SendsAreUnique(s: Session, cmds: seq<Command>)
    requires Numbered(s.core) && SentOnce(s) && IsRun(s, cmds) && OneLifetime(cmds)
    ensures NeverTwice(Final(s, cmds).wire)
    decreases |cmds|
  {
    hide Numbered, CoreAfter, Done;
    if cmds != [] {
      CommandSendsOnce(s, cmds[0]);
      CommandKeepsNumbered(s, cmds[0]);
      SendsAreUnique(Exec(s, cmds[0]), cmds[1..]);
    }
  }

  // ----- a lifetime after a load ---------------------------------------------------------------------------

  function Forgetful(s: Session): Session {
    s.(wire := [])
  }

  lemma ExecForgets(s: Session, cmd: Command)
    requires Enabled(s, cmd)
    ensures Enabled(Forgetful(s), cmd)
    ensures s.wire <= Exec(s, cmd).wire
    ensures Exec(Forgetful(s), cmd) == Exec(s, cmd).(wire := Exec(s, cmd).wire[|s.wire|..])
  {
    hide CoreAfter, Outbox;
    ForgetfulCore(s, cmd);
  }

  lemma ForgetfulCore(s: Session, cmd: Command)
    requires Enabled(s, cmd)
    ensures Enabled(Forgetful(s), cmd) && CoreAfter(Forgetful(s), cmd) == CoreAfter(s, cmd)
  {
    hide Outbox, RunOps, Restore, Sanitize;
  }

  /** What was sent before has no bearing on what is sent next. */
  lemma {:induction false} RunAppends(s: Session, w: seq<OutgoingMessage>, cmds: seq<Command>)
    requires IsRun(s, cmds)
    ensures IsRun(s.(wire := w), cmds)
    ensures s.wire <= Final(s, cmds).wire
    ensures Final(s.(wire := w), cmds) == Final(s, cmds).(wire := w + Final(s, cmds).wire[|s.wire|..])
    decreases |cmds|
  {
    hide Enabled, Exec;
    if cmds == [] {
      assert s.wire[|s.wire|..] == [];
    } else {
      var t, u := Exec(s, cmds[0]), s.(wire := w);
      ExecForgets(s, cmds[0]);
      EnabledForgets(s, u, cmds[0]);
      ExecForgets(u, cmds[0]);
      var x := Exec(u, cmds[0]);
      assert x == t.(wire := x.wire);
      RunAppends(t, x.wire, cmds[1..]);
      assert x.wire == w + t.wire[|s.wire|..];
      var f := Final(t, cmds[1..]).wire;
      assert f == t.wire + f[|t.wire|..];
      assert f[|s.wire|..] == t.wire[|s.wire|..] + f[|t.wire|..];
    }
  }

  lemma EnabledForgets(s: Session, u: Session, cmd: Command)
    requires Enabled(s, cmd) && u == s.(wire := u.wire)
    ensures Enabled(u, cmd)
  {
    hide Outbox;
  }

  /** A lifetime that begins with a load of any file at all: no message is accepted twice in it, deliveries are
      monotone, and if the waiting messages of the file are moored, each account's sends are in order. */
  lemma AfterAnyLoad(s: Session, file: Snapshot, cmds: seq<Command>)
    requires Enabled(s, LoadState(file))
    requires IsRun(Exec(s, LoadState(file)), cmds) && OneLifetime(cmds)
    ensures var t := Exec(s, LoadState(file));
            var end := Final(t, cmds);
            && |s.wire| <= |end.wire| && NeverTwice(end.wire[|s.wire|..])
            && Advances(t.core, end.core)
            && (MooredFile(file) ==> WireAscends(end.wire[|s.wire|..]))
  {
    hide Restore, Sanitize, Numbered, Moored, Advances, Succeeds, MooredFile, IsRun, Final, OneLifetime;
    var t := Exec(s, LoadState(file));
    var u := t.(wire := []);
    RestoredIsNumbered(Sanitize(file));
    RestoredIsMooredIff(Sanitize(file));
    SanitizeKeepsMoored(file);
    RunAppends(t, [], cmds);
    assert [] + Final(t, cmds).wire[|s.wire|..] == Final(t, cmds).wire[|s.wire|..];
    DeliveryIsMonotone(t, cmds);
    SendsAreUnique(u, cmds);
    if MooredFile(file) {
      SendsAreOrderedAndUnique(u, cmds);
    }
  }

  lemma SanitizeKeepsMoored(file: Snapshot)
    ensures MooredFile(Sanitize(file)) <==> MooredFile(file)
  {
    hide Kept, MaxKey;
  }

  // ----- a message adrift ----------------------------------------------------------------------------------

  const ALICE := Account(1, "alice@example.org", "example.org", "", Offline, {}, None, None, true, [])
  const BOB := Conversation(1, 1, Direct, "bob@example.org", "", 0, 0)
  const OLDER := Message(1, 2, "alice@example.org", "first", Outgoing, TextMessage, 0, Pending, None, None)
  const NEWER := Message(2, 1, "alice@example.org", "second", Outgoing, TextMessage, 0, Pending, None, None)

  /** The older message waits in a conversation that is not there, and will be the next one opened. */
  const ADRIFT := Snapshot([ALICE], [], [BOB], [OLDER, NEWER], [])

  const NEWER_SENT := OutgoingMessage(1, 1, 2, Direct, "bob@example.org", "second", None)

  lemma {:induction false} CollectOne<T, K>(x: T, key: T -> K)
    ensures Collect([x], key) == map[key(x) := x]
  {
    assert [x][..0] == [];
  }

  lemma {:induction false} CollectTwo<T, K>(x: T, y: T, key: T -> K)
    ensures Collect([x, y], key) == map[key(x) := x][key(y) := y]
  {
    CollectOne(x, key);
    assert [x, y][..1] == [x];
  }

  lemma {:induction false} MaxOfOne<T>(x: T, key: T -> nat)
    ensures MaxKey([x], key) == key(x)
  {
    assert [x][..0] == [];
  }

  /** The conversations and messages of `ADRIFT`, with whatever account. */
  ghost predicate Adrift(c: Core) {
    && c.conversations == map[1 := BOB] && c.messages == map[1 := OLDER, 2 := NEWER] && c.nextConversation == 2
    && 1 in c.accounts
  }

  lemma AdriftRestores()
    ensures Adrift(Restore(Sanitize(ADRIFT)))
  {
    hide Sanitize, CleanAccount, Collect, MaxKey;
    RestoreCommutesWithSanitize(ADRIFT);
    CollectOne(ALICE, AccountKey);
    CollectOne(BOB, ConversationKey);
    CollectTwo(OLDER, NEWER, MessageKey);
    MaxOfOne(BOB, ConversationKey);
    SanitizedConversations(ADRIFT);
    assert MessageKey(OLDER) == 1 && MessageKey(NEWER) == 2;
    assert 1 in Restore(ADRIFT).accounts;
  }

  lemma SanitizedConversations(s: Snapshot)
    ensures Sanitize(s).conversations == s.conversations
  {
  }

  // ----- the run that sends it out of turn -----------------------------------------------------------------

  /** The newer message is sent while the older one has no conversation. */
  lemma NewerGoesFirst(c: Core)
    requires Adrift(c)
    ensures Outbox(c, 1) == [NEWER_SENT]
    ensures RunOps(c, MarkOps([NEWER_SENT], 1, false)) == c.PutMessage(2, NEWER.(delivery := Sent))
  {
    hide RunOps, MarkOps, Outbox;
    assert !c.Waiting(1, 1) && c.Waiting(1, 2) && c.Envelope(2) == NEWER_SENT;
    forall e ensures e in [NEWER_SENT] <==> c.Waiting(1, e.message) && e == c.Envelope(e.message) {
      assert c.Waiting(1, e.message) ==> e.message == 2;
    }
    OutboxIsUnique(c, 1, [NEWER_SENT]);
    MarkOne(c, NEWER_SENT);
  }

  lemma MarkOne(c: Core, e: OutgoingMessage)
    requires e.message in c.messages
    ensures RunOps(c, MarkOps([e], 1, false)) ==
            c.PutMessage(e.message, c.messages[e.message].(delivery := Sent))
  {
    hide RunOps, Perform;
    assert MarkOps([e], 1, false) == [OpSetDeliveryState(e.message, Sent)];
    RunOne(c, OpSetDeliveryState(e.message, Sent));
    FlushStep(c, e.message, Sent);
  }

  /** Opening the next conversation adopts it. */
  lemma OlderIsAdopted(c: Core, address: string)
    requires Adrift(c) && ValidJid(address) && address != BOB.address
    ensures var d := c.PutMessage(2, NEWER.(delivery := Sent));
            var e := d.OpenConversation(1, Direct, address, "", 0).core;
            && d.accounts == c.accounts && e.accounts == c.accounts
            && Outbox(e, 1) == [OutgoingMessage(1, 2, 1, Direct, address, OLDER.body, None)]
            && 1 in e.messages
  {
    hide Outbox, ValidJid;
    var d := c.PutMessage(2, NEWER.(delivery := Sent));
    var e := d.OpenConversation(1, Direct, address, "", 0).core;
    forall v ensures !d.IsConversation(v, 1, Direct, address) {
    }
    assert e.conversations == map[1 := BOB, 2 := Conversation(2, 1, Direct, address, "", 0, 0)];
    assert e.messages == map[1 := OLDER, 2 := NEWER.(delivery := Sent)];
    var sent := OutgoingMessage(1, 2, 1, Direct, address, OLDER.body, None);
    assert e.Waiting(1, 1) && !e.Waiting(1, 2) && e.Envelope(1) == sent;
    forall x ensures x in [sent] <==> e.Waiting(1, x.message) && x == e.Envelope(x.message) {
      assert e.Waiting(1, x.message) ==> x.message == 1;
    }
    OutboxIsUnique(e, 1, [sent]);
  }

  lemma AliceConnects(c: Core)
    requires Adrift(c)
    ensures var d := RunOps(c, EventOps([Connected(1, {})]));
            Adrift(d) && 1 in d.accounts && d.accounts[1].state == Online
  {
    hide RunOps;
    assert EventOps([Connected(1, {})]) == [OpTransportEvent(Connected(1, {}))];
    RunOne(c, OpTransportEvent(Connected(1, {})));
  }

  function DriftingRun(address: string): seq<Command> {
    [LoadState(ADRIFT), Arrive(Connected(1, {})), PollTransport(1), FlushOutbox(1, 1, false),
     Local(OpOpenConversation(1, Direct, address, "", 0)), FlushOutbox(1, 1, false)]
  }

  lemma RunOneMore(s: Session, t: Session, cmds: seq<Command>, i: nat)
    requires i < |cmds| && Enabled(s, cmds[i]) && Exec(s, cmds[i]) == t && IsRun(t, cmds[i + 1..])
    ensures IsRun(s, cmds[i..]) && Final(s, cmds[i..]) == Final(t, cmds[i + 1..])
  {
    assert cmds[i..][1..] == cmds[i + 1..];
  }

  /** A file loaded with a message adrift, the other message sent, the conversation opened, and the first one sent after
      it: out of order, though neither twice. */
  lemma AMessageAdriftIsSentOutOfTurn(address: string)
    requires ValidJid(address) && address != BOB.address
    ensures IsRun(EmptySession, DriftingRun(address))
    ensures var sent := OutgoingMessage(1, 2, 1, Direct, address, OLDER.body, None);
            Final(EmptySession, DriftingRun(address)).wire == [NEWER_SENT, sent]
            && !WireAscends([NEWER_SENT, sent])
  {
    hide Restore, Sanitize, RunOps, MarkOps, EventOps, Outbox, ValidJid, Perform, IsRun, Final, Exec, Enabled;
    hide Adrift, Core.OpenConversation, WireAscends, CoreAfter;
    var cmds := DriftingRun(address);
    var c := Restore(Sanitize(ADRIFT));
    AdriftRestores();
    AliceConnects(c);
    var d := RunOps(c, EventOps([Connected(1, {})]));
    NewerGoesFirst(d);
    OlderIsAdopted(d, address);
    var s1 := Session(c, {}, [], []);
    var s2 := Session(c, {}, [Connected(1, {})], []);
    AdriftLoads();
    AliceArrives(s1);
    var s3 := Session(d, {}, [], []);
    AliceIsPolled(s2, d);
    var s4 := Session(d.PutMessage(2, NEWER.(delivery := Sent)), {}, [], [NEWER_SENT]);
    FlushOne(s3, NEWER_SENT, s4);
    var s5 := s4.(core := s4.core.OpenConversation(1, Direct, address, "", 0).core);
    ConversationIsOpened(s4, address);
    var sent := OutgoingMessage(1, 2, 1, Direct, address, OLDER.body, None);
    var s6 := s5.(core := s5.core.PutMessage(1, s5.core.messages[1].(delivery := Sent)), wire := [NEWER_SENT, sent]);
    MarkOne(s5.core, sent);
    OutOfOrder(sent);
    FlushOne(s5, sent, s6);
    assert cmds[6..] == [];
    NothingMore(s6);
    RunOneMore(s5, s6, cmds, 5);
    RunOneMore(s4, s5, cmds, 4);
    RunOneMore(s3, s4, cmds, 3);
    RunOneMore(s2, s3, cmds, 2);
    RunOneMore(s1, s2, cmds, 1);
    RunOneMore(EmptySession, s1, cmds, 0);
    assert cmds[0..] == cmds;
  }

  lemma OutOfOrder(sent: OutgoingMessage)
    requires sent.account == 1 && sent.message == 1
    ensures !WireAscends([NEWER_SENT, sent])
  {
    var wire := [NEWER_SENT, sent];
    assert wire[0].account == wire[1].account && wire[0].message > wire[1].message;
  }

  lemma AdriftLoads()
    ensures Enabled(EmptySession, LoadState(ADRIFT))
    ensures Exec(EmptySession, LoadState(ADRIFT)) == Session(Restore(Sanitize(ADRIFT)), {}, [], [])
  {
    hide Restore, Sanitize;
  }

  lemma AliceArrives(s: Session)
    ensures Enabled(s, Arrive(Connected(1, {})))
    ensures Exec(s, Arrive(Connected(1, {}))) == s.(queue := s.queue + [Connected(1, {})])
  {
  }

  lemma NothingMore(s: Session)
    ensures IsRun(s, []) && Final(s, []) == s
  {
  }

  lemma AliceIsPolled(s: Session, d: Core)
    requires s.queue == [Connected(1, {})] && s.workers == {} && d == RunOps(s.core, EventOps(s.queue))
    ensures Enabled(s, PollTransport(1))
    ensures Exec(s, PollTransport(1)) == s.(core := d, queue := [])
  {
    hide RunOps, EventOps, Exec, Enabled;
    PollExec(s, 1);
    assert s.queue[..1] == s.queue && s.queue[1..] == [];
    assert WorkersAfter({}, s.queue) == {} by {
      assert s.queue[1..] == [];
    }
  }

  lemma FlushOne(s: Session, e: OutgoingMessage, t: Session)
    requires 1 in s.core.accounts && s.core.accounts[1].state == Online && Outbox(s.core, 1) == [e]
    requires t == s.(core := RunOps(s.core, MarkOps([e], 1, false)), wire := s.wire + [e])
    ensures Enabled(s, FlushOutbox(1, 1, false)) && Exec(s, FlushOutbox(1, 1, false)) == t
  {
    hide RunOps, MarkOps, Outbox, Exec;
    FlushExec(s, 1, 1, false);
    assert [e][..1] == [e];
  }

  lemma ConversationIsOpened(s: Session, address: string)
    ensures var cmd := Local(OpOpenConversation(1, Direct, address, "", 0));
            Enabled(s, cmd) && Exec(s, cmd) == s.(core := s.core.OpenConversation(1, Direct, address, "", 0).core)
  {
    hide Core.OpenConversation, RunOps;
    RunOne(s.core, OpOpenConversation(1, Direct, address, "", 0));
  }
}
