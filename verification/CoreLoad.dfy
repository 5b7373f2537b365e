/** Which state files restore to a consistent core: a condition on what the file lists. */
module CoreLoad {
  import opened Wrappers
  import opened Domain
  import opened CoreState
  import opened CoreInvariant
  import opened CoreNotify
  import opened CoreSnapshot

  predicate Lists<T, K(==)>(xs: seq<T>, key: T -> K, k: K) {
    exists i :: 0 <= i < |xs| && key(xs[i]) == k
  }

  ghost predicate KeptMessage(s: Snapshot, m: Message) {
    Kept(s.messages, MessageKey, m)
  }

  ghost predicate KeptConversation(s: Snapshot, v: Conversation) {
    Kept(s.conversations, ConversationKey, v)
  }

  /** The reply target is listed, older, and in the same conversation. */
  ghost predicate Answers(s: Snapshot, m: Message) {
    m.inReplyTo.Some? ==>
      exists t :: KeptMessage(s, t) && t.id == m.inReplyTo.value && t.id < m.id && t.conversation == m.conversation
  }

  ghost function Arrived(s: Snapshot, conversation: nat): set<nat> {
    set m | m in s.messages && KeptMessage(s, m) && m.conversation == conversation && m.direction == Incoming :: m.id
  }

  /** A file without dangling references: every record it keeps has a positive identifier and an owner the file lists,
      replies answer, conversations are unambiguous, and badges are covered by arrivals. */
  ghost predicate Sound(s: Snapshot) {
    && (forall a :: a in s.accounts ==> 1 <= a.id)
    && (forall c :: c in s.contacts ==> Lists(s.accounts, AccountKey, c.account))
    && (forall v :: KeptConversation(s, v) ==>
                      1 <= v.id && Lists(s.accounts, AccountKey, v.account) && v.unread <= |Arrived(s, v.id)|)
    && (forall m :: KeptMessage(s, m) ==>
                      1 <= m.id && Lists(s.conversations, ConversationKey, m.conversation) && Answers(s, m))
    && (forall r :: Kept(s.reactions, ReactionKey, r) ==> 1 <= r.id && Lists(s.messages, MessageKey, r.message))
    && (forall v, w :: KeptConversation(s, v) && KeptConversation(s, w) && SameKey(v, w) ==> v == w)
  }

  // ----- the same, of the maps a restore builds --------------------------------------------------------

  lemma ListsIsCollect<T, K>(xs: seq<T>, key: T -> K, k: K)
    ensures Lists(xs, key, k) <==> k in Collect(xs, key)
  {
    CollectKeepsLast(xs, key, k);
  }

  lemma KeptIsCollect<T, K>(xs: seq<T>, key: T -> K, k: K)
    requires k in Collect(xs, key)
    ensures var x := Collect(xs, key)[k]; Kept(xs, key, x) && key(x) == k && x in xs
  {
    CollectKeepsLast(xs, key, k);
    CollectHoldsTheKept(xs, key, Collect(xs, key)[k]);
  }

  lemma CollectIsKept<T, K>(xs: seq<T>, key: T -> K, x: T)
    requires Kept(xs, key, x)
    ensures key(x) in Collect(xs, key) && Collect(xs, key)[key(x)] == x
  {
    CollectHoldsTheKept(xs, key, x);
  }

  lemma ArrivedIsIncoming(s: Snapshot, conversation: nat)
    ensures Arrived(s, conversation) == IncomingIn(Restore(s), conversation)
  {
    hide Collect, Kept, MaxKey;
    var c := Restore(s);
    forall id: nat ensures id in Arrived(s, conversation) <==> id in IncomingIn(c, conversation) {
      if id in c.messages {
        KeptIsCollect(s.messages, MessageKey, id);
        assert KeptMessage(s, c.messages[id]);
      }
      if id in Arrived(s, conversation) {
        var m :| m in s.messages && KeptMessage(s, m) && m.conversation == conversation && m.direction == Incoming
                 && m.id == id;
        CollectIsKept(s.messages, MessageKey, m);
      }
    }
  }

  lemma AccountsAreGood(s: Snapshot)
    requires Sound(s)
    ensures var d := Restore(Sanitize(s)); forall a :: a in d.accounts ==> GoodAccount(d, a)
  {
    hide Collect, Kept, MaxKey, Sanitize, CleanAccount, CleanContact, Lists, KeptMessage, KeptConversation, Answers;
    var c, d := Restore(s), Restore(Sanitize(s));
    RestoreCommutesWithSanitize(s);
    RestoreIsBelowAllocators(Sanitize(s));
    forall a | a in d.accounts ensures GoodAccount(d, a) {
      KeptIsCollect(s.accounts, AccountKey, a);
      CleanedAccount(c.accounts[a]);
    }
  }

  lemma ContactsAreGood(s: Snapshot)
    requires Sound(s)
    ensures var d := Restore(Sanitize(s)); forall k :: k in d.contacts ==> GoodContact(d, k)
  {
    hide Collect, Kept, MaxKey, Sanitize, CleanAccount, CleanContact, Lists, KeptMessage, KeptConversation, Answers;
    var c, d := Restore(s), Restore(Sanitize(s));
    RestoreCommutesWithSanitize(s);
    forall k | k in d.contacts ensures GoodContact(d, k) {
      KeptIsCollect(s.contacts, ContactKey, k);
      ListsIsCollect(s.accounts, AccountKey, k.0);
      CleanedContact(c.contacts[k]);
    }
  }

  lemma RestoredConversation(s: Snapshot, v: nat)
    requires Sound(s) && v in Restore(s).conversations
    ensures var c := Restore(s).conversations[v];
            && KeptConversation(s, c) && c.id == v && 1 <= v && Lists(s.accounts, AccountKey, c.account)
            && c.unread <= |Arrived(s, v)|
  {
    hide Collect, Kept, MaxKey, Arrived, Lists, KeptMessage, Answers;
    KeptIsCollect(s.conversations, ConversationKey, v);
    assert KeptConversation(s, Restore(s).conversations[v]);
  }

  lemma ConversationsAreGood(s: Snapshot)
    requires Sound(s)
    ensures var d := Restore(Sanitize(s));
            forall v :: v in d.conversations ==>
                          GoodConversation(d, v) && d.conversations[v].unread <= |IncomingIn(d, v)|
  {
    hide Collect, MaxKey, Sanitize, CleanAccount, CleanContact, IncomingIn, Arrived, Lists, Sound, KeptConversation;
    var c, d := Restore(s), Restore(Sanitize(s));
    RestoreCommutesWithSanitize(s);
    RestoreIsBelowAllocators(Sanitize(s));
    forall v | v in d.conversations
      ensures GoodConversation(d, v) && d.conversations[v].unread <= |IncomingIn(d, v)|
    {
      RestoredConversation(s, v);
      ListsIsCollect(s.accounts, AccountKey, c.conversations[v].account);
      ArrivedIsIncoming(s, v);
      SameIncoming(c, d, v);
    }
  }

  lemma ConversationsAreUnambiguous(s: Snapshot)
    requires Sound(s)
    ensures Unambiguous(Restore(Sanitize(s)))
  {
    hide Collect, Kept, MaxKey, Sanitize, CleanAccount, CleanContact, Lists, KeptMessage, KeptConversation, Answers;
    hide Arrived;
    var c, d := Restore(s), Restore(Sanitize(s));
    RestoreCommutesWithSanitize(s);
    forall v, w | v in d.conversations && w in d.conversations && SameKey(d.conversations[v], d.conversations[w])
      ensures v == w
    {
      RestoredConversation(s, v);
      RestoredConversation(s, w);
    }
  }

  lemma RestoredMessage(s: Snapshot, m: nat)
    requires Sound(s) && m in Restore(s).messages
    ensures var c := Restore(s).messages[m];
            && KeptMessage(s, c) && c.id == m && 1 <= m && Lists(s.conversations, ConversationKey, c.conversation)
            && Answers(s, c)
  {
    hide Collect, Kept, MaxKey, Arrived, Lists, KeptConversation, Answers;
    KeptIsCollect(s.messages, MessageKey, m);
    assert KeptMessage(s, Restore(s).messages[m]);
  }

  lemma MessagesAreGood(s: Snapshot)
    requires Sound(s)
    ensures var d := Restore(Sanitize(s)); forall m :: m in d.messages ==> GoodMessage(d, m)
  {
    hide Collect, Kept, MaxKey, Sanitize, CleanAccount, CleanContact, Lists, Sound;
    var c, d := Restore(s), Restore(Sanitize(s));
    RestoreCommutesWithSanitize(s);
    RestoreIsBelowAllocators(Sanitize(s));
    forall m | m in d.messages ensures GoodMessage(d, m) {
      RestoredMessage(s, m);
      var was := c.messages[m];
      ListsIsCollect(s.conversations, ConversationKey, was.conversation);
      if was.inReplyTo.Some? {
        var t :| KeptMessage(s, t) && t.id == was.inReplyTo.value && t.id < was.id
                 && t.conversation == was.conversation;
        CollectIsKept(s.messages, MessageKey, t);
      }
    }
  }

  lemma ReactionsAreGood(s: Snapshot)
    requires Sound(s)
    ensures var d := Restore(Sanitize(s)); forall r :: r in d.reactions ==> GoodReaction(d, r)
  {
    hide Collect, Kept, MaxKey, Sanitize, CleanAccount, CleanContact, Lists, KeptMessage, KeptConversation, Answers;
    var c, d := Restore(s), Restore(Sanitize(s));
    RestoreCommutesWithSanitize(s);
    RestoreIsBelowAllocators(Sanitize(s));
    forall r | r in d.reactions ensures GoodReaction(d, r) {
      KeptIsCollect(s.reactions, ReactionKey, r);
      ListsIsCollect(s.messages, MessageKey, c.reactions[r].message);
    }
  }

  lemma SoundRestores(s: Snapshot)
    requires Sound(s)
    ensures Inv(Restore(Sanitize(s)))
  {
    hide Sound, Restore, Sanitize, Unambiguous, IncomingIn;
    AccountsAreGood(s);
    ContactsAreGood(s);
    ConversationsAreGood(s);
    MessagesAreGood(s);
    ReactionsAreGood(s);
    ConversationsAreUnambiguous(s);
  }

  lemma CleanedAccount(a: Account)
    ensures NoStaleFailure(CleanAccount(a)) && CleanAccount(a).id == a.id
  {
  }

  lemma CleanedContact(c: Contact)
    ensures CleanContact(c).account == c.account && CleanContact(c).jid == c.jid
  {
  }

  lemma SameIncoming(c: Core, d: Core, v: nat)
    requires c.messages == d.messages
    ensures IncomingIn(c, v) == IncomingIn(d, v)
  {
  }

  lemma RestoredIsSound(s: Snapshot)
    requires Inv(Restore(Sanitize(s)))
    ensures Sound(s)
  {
    hide Collect, Kept, MaxKey, Sanitize, CleanAccount, CleanContact, IncomingIn, Arrived, Lists;
    var c, d := Restore(s), Restore(Sanitize(s));
    RestoreCommutesWithSanitize(s);
    forall a | a in s.accounts ensures 1 <= a.id {
      ListedIsCollected(s.accounts, AccountKey, a);
      assert GoodAccount(d, a.id);
    }
    forall k | k in s.contacts ensures Lists(s.accounts, AccountKey, k.account) {
      ListedIsCollected(s.contacts, ContactKey, k);
      assert GoodContact(d, ContactKey(k));
      ListsIsCollect(s.accounts, AccountKey, k.account);
    }
    forall v | KeptConversation(s, v)
      ensures v.id in d.conversations && d.conversations[v.id] == v
      ensures 1 <= v.id && Lists(s.accounts, AccountKey, v.account) && v.unread <= |Arrived(s, v.id)|
    {
      CollectIsKept(s.conversations, ConversationKey, v);
      assert GoodConversation(d, v.id);
      ListsIsCollect(s.accounts, AccountKey, v.account);
      ArrivedIsIncoming(s, v.id);
      SameIncoming(c, d, v.id);
    }
    forall m | KeptMessage(s, m)
      ensures 1 <= m.id && Lists(s.conversations, ConversationKey, m.conversation) && Answers(s, m)
    {
      CollectIsKept(s.messages, MessageKey, m);
      assert GoodMessage(d, m.id);
      ListsIsCollect(s.conversations, ConversationKey, m.conversation);
      if m.inReplyTo.Some? {
        KeptIsCollect(s.messages, MessageKey, m.inReplyTo.value);
        assert KeptMessage(s, d.messages[m.inReplyTo.value]);
      }
    }
    forall r | Kept(s.reactions, ReactionKey, r) ensures 1 <= r.id && Lists(s.messages, MessageKey, r.message) {
      CollectIsKept(s.reactions, ReactionKey, r);
      assert GoodReaction(d, r.id);
      ListsIsCollect(s.messages, MessageKey, r.message);
    }
  }

  lemma ListedIsCollected<T, K>(xs: seq<T>, key: T -> K, x: T)
    requires x in xs
    ensures key(x) in Collect(xs, key)
  {
    CollectKeepsLast(xs, key, key(x));
  }

  /** A state file restores to a consistent core if and only if it is sound. */
  lemma RestoresConsistentlyIffSound(s: Snapshot)
    ensures Inv(Restore(Sanitize(s))) <==> Sound(s)
  {
    hide Inv, Sound;
    if Sound(s) { SoundRestores(s); }
    if Inv(Restore(Sanitize(s))) { RestoredIsSound(s); }
  }

  /** Whatever a consistent core saves is sound. */
  lemma SavedIsSound(c: Core)
    requires Inv(c)
    ensures Keyed(c) && Sound(Take(c))
  {
    hide Inv, Sound;
    RestoredCore(c);
    RestoresConsistentlyIffSound(Take(c));
  }

  /** A message without its conversation: readable as a state file, and no consistent core's. */
  const ORPHAN := Message(1, 1, "alice@example.org", "hi", Outgoing, TextMessage, 0, Pending, None, None)
  const ORPHANED := Snapshot([], [], [], [ORPHAN], [])

  lemma OrphansAreUnsound()
    ensures !Inv(Restore(Sanitize(ORPHANED)))
  {
    hide Sound, Inv;
    assert LastWith(ORPHANED.messages, MessageKey, 1, 0);
    assert KeptMessage(ORPHANED, ORPHAN);
    NotSound(ORPHANED, ORPHAN);
    RestoresConsistentlyIffSound(ORPHANED);
  }

  lemma NotSound(s: Snapshot, m: Message)
    requires KeptMessage(s, m) && !Lists(s.conversations, ConversationKey, m.conversation)
    ensures !Sound(s)
  {
  }

  /** A restore starts an empty log, so it is announced exactly when nothing was waiting to be drained and it neither
      brings nor replaces a record. */
  lemma RestoreIsAnnouncedIffNothingChanges(c: Core, s: Snapshot)
    ensures Announces(c, Restore(s)) <==> c.events == [] && SameRecords(c, Restore(s))
  {
    hide Collect, MaxKey, Notified, SameRecords;
    var d := Restore(s);
    assert c.events == [] ==> d.events[|c.events|..] == [];
    SilenceIsSameness(c, d);
  }

  lemma SilenceIsSameness(c: Core, d: Core)
    ensures Notified(c, d, []) <==> SameRecords(c, d)
  {
    if Notified(c, d, []) {
      SameMaps(c.accounts, d.accounts);
      SameMaps(c.contacts, d.contacts);
      SameMaps(c.conversations, d.conversations);
      SameMaps(c.messages, d.messages);
      SameMaps(c.reactions, d.reactions);
    }
  }

  lemma SameMaps<K(!new), V>(m: map<K, V>, n: map<K, V>)
    requires forall k :: !Changed(m, n, k)
    ensures m == n
  {
    forall k ensures k in m <==> k in n {
      assert !Changed(m, n, k);
    }
    forall k | k in m ensures m[k] == n[k] {
      assert !Changed(m, n, k);
    }
  }
}
