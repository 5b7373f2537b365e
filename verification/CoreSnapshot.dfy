/** Snapshots: the sorted listing of a core, the core a listing restores, and why the trip between them loses
    nothing that must survive a restart. */
module CoreSnapshot {
  import opened Wrappers
  import opened Domain
  import opened Text
  import opened Ordering
  import opened CoreState
  import opened CoreInvariant

  datatype Snapshot = Snapshot(
    accounts: seq<Account>, contacts: seq<Contact>, conversations: seq<Conversation>, messages: seq<Message>,
    reactions: seq<Reaction>)

  function AccountKey(a: Account): nat { a.id }
  function ContactKey(c: Contact): (nat, string) { (c.account, c.jid) }
  function ConversationKey(v: Conversation): nat { v.id }
  function MessageKey(m: Message): nat { m.id }
  function ReactionKey(r: Reaction): nat { r.id }

  // ----- restoring --------------------------------------------------------------------------

  /** Collecting into a map: a later record replaces an earlier one with the same key. */
  function Collect<T, K>(xs: seq<T>, key: T -> K): map<K, T> {
    if xs == [] then map[]
    else
      var last := xs[|xs| - 1];
      Collect(xs[..|xs| - 1], key)[key(last) := last]
  }

  function MaxKey<T>(xs: seq<T>, key: T -> nat): (max: nat)
    ensures forall i :: 0 <= i < |xs| ==> key(xs[i]) <= max
    ensures max == 0 || exists i :: 0 <= i < |xs| && key(xs[i]) == max
  {
    if xs == [] then 0
    else
      var rest := MaxKey(xs[..|xs| - 1], key);
      var last := key(xs[|xs| - 1]);
      if rest < last then last else rest
  }

  lemma MaxKeyBounds<T>(xs: seq<T>, key: T -> nat)
    ensures forall x :: x in xs ==> key(x) <= MaxKey(xs, key)
  {
  }

  function Restore(s: Snapshot): Core {
    Core(MaxKey(s.accounts, AccountKey) + 1, MaxKey(s.conversations, ConversationKey) + 1,
         MaxKey(s.messages, MessageKey) + 1, MaxKey(s.reactions, ReactionKey) + 1,
         Collect(s.accounts, AccountKey), Collect(s.contacts, ContactKey), Collect(s.conversations, ConversationKey),
         Collect(s.messages, MessageKey), Collect(s.reactions, ReactionKey), [])
  }

  ghost predicate LastWith<T, K>(xs: seq<T>, key: T -> K, k: K, i: int) {
    0 <= i < |xs| && key(xs[i]) == k && forall j :: i < j < |xs| ==> key(xs[j]) != k
  }

  /** A restored key holds the last record listed under it. */
  lemma {:induction false} CollectKeepsLast<T, K>(xs: seq<T>, key: T -> K, k: K)
    ensures k in Collect(xs, key) <==> exists i :: 0 <= i < |xs| && key(xs[i]) == k
    ensures forall i :: LastWith(xs, key, k, i) ==> k in Collect(xs, key) && Collect(xs, key)[k] == xs[i]
    ensures k in Collect(xs, key) ==> key(Collect(xs, key)[k]) == k && Collect(xs, key)[k] in xs
  {
    if xs != [] {
      var front := xs[..|xs| - 1];
      CollectKeepsLast(front, key, k);
      assert xs == front + [xs[|xs| - 1]];
      forall i | LastWith(xs, key, k, i) ensures k in Collect(xs, key) && Collect(xs, key)[k] == xs[i] {
        if i < |xs| - 1 {
          assert LastWith(front, key, k, i);
        }
      }
    }
  }

  // ----- listing ----------------------------------------------------------------------------

  ghost predicate KeyedBy<T, K(!new)>(m: map<K, T>, key: T -> K) {
    forall k :: k in m ==> key(m[k]) == k
  }

  ghost predicate Keyed(c: Core) {
    && KeyedBy(c.accounts, AccountKey) && KeyedBy(c.contacts, ContactKey) && KeyedBy(c.conversations, ConversationKey)
    && KeyedBy(c.messages, MessageKey) && KeyedBy(c.reactions, ReactionKey)
  }

  lemma PlacedIsKeyed(c: Core)
    requires Placed(c)
    ensures Keyed(c)
  {
    forall a | a in c.accounts ensures AccountKey(c.accounts[a]) == a { assert GoodAccount(c, a); }
    forall k | k in c.contacts ensures ContactKey(c.contacts[k]) == k { assert GoodContact(c, k); }
    forall v | v in c.conversations ensures ConversationKey(c.conversations[v]) == v { assert GoodConversation(c, v); }
    forall m | m in c.messages ensures MessageKey(c.messages[m]) == m { assert GoodMessage(c, m); }
    forall r | r in c.reactions ensures ReactionKey(c.reactions[r]) == r { assert GoodReaction(c, r); }
  }

  ghost function Listing<T(!new), K(!new)>(m: map<K, T>, key: T -> K, less: (K, K) -> bool): (xs: seq<T>)
    requires StrictOrder(less) && KeyedBy(m, key)
    ensures Ascending(xs, key, less)
    ensures forall x :: x in xs <==> key(x) in m && m[key(x)] == x
  {
    Arrange(m.Values, key, less)
  }

  ghost function Take(c: Core): Snapshot
    requires Keyed(c)
  {
    NatLessIsStrict();
    ContactLessIsStrict();
    Snapshot(Listing(c.accounts, AccountKey, NatLess), Listing(c.contacts, ContactKey, ContactLess),
             Listing(c.conversations, ConversationKey, NatLess), Listing(c.messages, MessageKey, NatLess),
             Listing(c.reactions, ReactionKey, NatLess))
  }

  ghost predicate Sorted(s: Snapshot) {
    && Ascending(s.accounts, AccountKey, NatLess) && Ascending(s.contacts, ContactKey, ContactLess)
    && Ascending(s.conversations, ConversationKey, NatLess) && Ascending(s.messages, MessageKey, NatLess)
    && Ascending(s.reactions, ReactionKey, NatLess)
  }

  lemma TakeIsSorted(c: Core)
    requires Keyed(c)
    ensures Sorted(Take(c))
  {
  }

  /** The listing counts upwards in every list: by identifier, and contacts by account and then by address. */
  lemma ListingsCountUpwards(c: Core, i: nat, j: nat)
    requires Keyed(c) && i < j
    ensures var s := Take(c);
            && (j < |s.accounts| ==> s.accounts[i].id < s.accounts[j].id)
            && (j < |s.contacts| ==>
                  var k, l := s.contacts[i], s.contacts[j];
                  k.account < l.account || (k.account == l.account && LexLess(k.jid, l.jid)))
            && (j < |s.conversations| ==> s.conversations[i].id < s.conversations[j].id)
            && (j < |s.messages| ==> s.messages[i].id < s.messages[j].id)
            && (j < |s.reactions| ==> s.reactions[i].id < s.reactions[j].id)
  {
    hide Take, LexLess;
    TakeIsSorted(c);
    var s := Take(c);
    if j < |s.accounts| { assert NatLess(AccountKey(s.accounts[i]), AccountKey(s.accounts[j])); }
    if j < |s.contacts| { assert ContactLess(ContactKey(s.contacts[i]), ContactKey(s.contacts[j])); }
    if j < |s.conversations| {
      assert NatLess(ConversationKey(s.conversations[i]), ConversationKey(s.conversations[j]));
    }
    if j < |s.messages| { assert NatLess(MessageKey(s.messages[i]), MessageKey(s.messages[j])); }
    if j < |s.reactions| { assert NatLess(ReactionKey(s.reactions[i]), ReactionKey(s.reactions[j])); }
  }

  lemma CollectIsKeyed<T, K(!new)>(xs: seq<T>, key: T -> K)
    ensures KeyedBy(Collect(xs, key), key)
  {
    forall k | k in Collect(xs, key) ensures key(Collect(xs, key)[k]) == k {
      CollectKeepsLast(xs, key, k);
    }
  }

  lemma RestoreIsKeyed(s: Snapshot)
    ensures Keyed(Restore(s))
  {
    CollectIsKeyed(s.accounts, AccountKey);
    CollectIsKeyed(s.contacts, ContactKey);
    CollectIsKeyed(s.conversations, ConversationKey);
    CollectIsKeyed(s.messages, MessageKey);
    CollectIsKeyed(s.reactions, ReactionKey);
  }

  /** Listing a map and collecting the listing gives the map back. */
  lemma CollectOfListing<T(!new), K(!new)>(m: map<K, T>, key: T -> K, less: (K, K) -> bool)
    requires StrictOrder(less) && KeyedBy(m, key)
    ensures Collect(Listing(m, key, less), key) == m
  {
    var xs := Listing(m, key, less);
    var back := Collect(xs, key);
    forall k ensures k in back <==> k in m {
      CollectKeepsLast(xs, key, k);
      if k in m {
        assert m[k] in xs;
      }
    }
    forall k | k in m ensures back[k] == m[k] {
      CollectKeepsLast(xs, key, k);
    }
  }

  /** What a core remembers across a save: its records. */
  predicate SameRecords(c: Core, d: Core) {
    && c.accounts == d.accounts && c.contacts == d.contacts && c.conversations == d.conversations
    && c.messages == d.messages && c.reactions == d.reactions
  }

  lemma RestoreOfTake(c: Core)
    requires Keyed(c)
    ensures SameRecords(Restore(Take(c)), c)
  {
    NatLessIsStrict();
    ContactLessIsStrict();
    CollectOfListing(c.accounts, AccountKey, NatLess);
    CollectOfListing(c.contacts, ContactKey, ContactLess);
    CollectOfListing(c.conversations, ConversationKey, NatLess);
    CollectOfListing(c.messages, MessageKey, NatLess);
    CollectOfListing(c.reactions, ReactionKey, NatLess);
  }

  /** Restoring and listing again: the normal form of a snapshot. */
  ghost function Normal(s: Snapshot): Snapshot {
    RestoreIsKeyed(s);
    Take(Restore(s))
  }

  /** Normal forms are sorted, stable, and what every core produces. */
  lemma NormalForm(s: Snapshot, c: Core)
    requires Keyed(c)
    ensures Sorted(Normal(s))
    ensures Normal(Normal(s)) == Normal(s)
    ensures Normal(Take(c)) == Take(c)
  {
    RestoreIsKeyed(s);
    RestoreOfTake(Restore(s));
    RestoreOfTake(c);
    TakeIsSorted(Restore(s));
  }

  lemma SortedListing<T(!new), K(!new)>(xs: seq<T>, key: T -> K, less: (K, K) -> bool)
    requires StrictOrder(less) && Ascending(xs, key, less)
    ensures KeyedBy(Collect(xs, key), key) && Listing(Collect(xs, key), key, less) == xs
  {
    CollectIsKeyed(xs, key);
    var m := Collect(xs, key);
    forall x ensures x in xs <==> key(x) in m && m[key(x)] == x {
      CollectKeepsLast(xs, key, key(x));
      if x in xs {
        var i :| 0 <= i < |xs| && xs[i] == x;
        assert forall j :: i < j < |xs| ==> less(key(xs[i]), key(xs[j]));
        assert LastWith(xs, key, key(x), i);
      }
    }
    AscendingIsUnique(xs, Listing(m, key, less), key, less);
  }

  /** The snapshots that survive a restore unchanged are exactly the sorted ones. */
  lemma NormalIffSorted(s: Snapshot)
    ensures Normal(s) == s <==> Sorted(s)
  {
    RestoreIsKeyed(s);
    TakeIsSorted(Restore(s));
    if Sorted(s) {
      NatLessIsStrict();
      ContactLessIsStrict();
      SortedListing(s.accounts, AccountKey, NatLess);
      SortedListing(s.contacts, ContactKey, ContactLess);
      SortedListing(s.conversations, ConversationKey, NatLess);
      SortedListing(s.messages, MessageKey, NatLess);
      SortedListing(s.reactions, ReactionKey, NatLess);
    }
  }

  /** `x` is the record a restore keeps for its key: the last one listed under it. */
  ghost predicate Kept<T, K>(xs: seq<T>, key: T -> K, x: T) {
    exists i :: LastWith(xs, key, key(x), i) && xs[i] == x
  }

  lemma CollectHoldsTheKept<T, K>(xs: seq<T>, key: T -> K, x: T)
    ensures Kept(xs, key, x) <==> key(x) in Collect(xs, key) && Collect(xs, key)[key(x)] == x
  {
    CollectKeepsLast(xs, key, key(x));
    if key(x) in Collect(xs, key) {
      var i := LastIndex(xs, key, key(x));
      assert LastWith(xs, key, key(x), i);
    }
  }

  lemma ListingHoldsTheKept<T(!new), K(!new)>(xs: seq<T>, key: T -> K, less: (K, K) -> bool)
    requires StrictOrder(less) && KeyedBy(Collect(xs, key), key)
    ensures forall x :: x in Listing(Collect(xs, key), key, less) <==> Kept(xs, key, x)
  {
    hide Kept, Collect;
    forall x ensures x in Listing(Collect(xs, key), key, less) <==> Kept(xs, key, x) {
      CollectHoldsTheKept(xs, key, x);
    }
  }

  /** In every list the normal form holds a record exactly when it is the last the snapshot held for its key. */
  lemma NormalFormKeepsLast(s: Snapshot)
    ensures forall a :: a in Normal(s).accounts <==> Kept(s.accounts, AccountKey, a)
    ensures forall c :: c in Normal(s).contacts <==> Kept(s.contacts, ContactKey, c)
    ensures forall v :: v in Normal(s).conversations <==> Kept(s.conversations, ConversationKey, v)
    ensures forall m :: m in Normal(s).messages <==> Kept(s.messages, MessageKey, m)
    ensures forall r :: r in Normal(s).reactions <==> Kept(s.reactions, ReactionKey, r)
  {
    hide Kept, Collect, Listing, MaxKey;
    RestoreIsKeyed(s);
    NatLessIsStrict();
    ContactLessIsStrict();
    ListingHoldsTheKept(s.accounts, AccountKey, NatLess);
    ListingHoldsTheKept(s.contacts, ContactKey, ContactLess);
    ListingHoldsTheKept(s.conversations, ConversationKey, NatLess);
    ListingHoldsTheKept(s.messages, MessageKey, NatLess);
    ListingHoldsTheKept(s.reactions, ReactionKey, NatLess);
  }

  ghost function LastIndex<T, K>(xs: seq<T>, key: T -> K, k: K): (i: nat)
    requires exists j :: 0 <= j < |xs| && key(xs[j]) == k
    ensures LastWith(xs, key, k, i)
  {
    if key(xs[|xs| - 1]) == k then |xs| - 1
    else
      assert forall j :: 0 <= j < |xs| && key(xs[j]) == k ==> xs[..|xs| - 1][j] == xs[j];
      var i := LastIndex(xs[..|xs| - 1], key, k);
      assert xs[..|xs| - 1][i] == xs[i];
      assert forall j :: i < j < |xs| - 1 ==> xs[..|xs| - 1][j] == xs[j];
      i
  }

  /** After any restore the next identifiers are one more than the largest the snapshot contains, or one if there is
      none. */
  lemma RestoredAllocatorsAreFresh(s: Snapshot)
    ensures var c := Restore(s);
            && (forall a :: a in s.accounts ==> a.id < FreshId(c.nextAccount))
            && (forall v :: v in s.conversations ==> v.id < FreshId(c.nextConversation))
            && (forall m :: m in s.messages ==> m.id < FreshId(c.nextMessage))
            && (forall r :: r in s.reactions ==> r.id < FreshId(c.nextReaction))
    ensures var c := Restore(s);
            && (c.nextAccount == 1 || exists a :: a in s.accounts && c.nextAccount == a.id + 1)
            && (c.nextConversation == 1 || exists v :: v in s.conversations && c.nextConversation == v.id + 1)
            && (c.nextMessage == 1 || exists m :: m in s.messages && c.nextMessage == m.id + 1)
            && (c.nextReaction == 1 || exists r :: r in s.reactions && c.nextReaction == r.id + 1)
  {
    hide MaxKey;
    MaxKeyBounds(s.accounts, AccountKey);
    MaxKeyBounds(s.conversations, ConversationKey);
    MaxKeyBounds(s.messages, MessageKey);
    MaxKeyBounds(s.reactions, ReactionKey);
  }

  // ----- sanitizing -------------------------------------------------------------------------

  function CleanAccount(a: Account): Account {
    a.(state := Offline, error := None, disconnectKind := None, capabilities := {})
  }

  function CleanContact(c: Contact): Contact {
    c.(presence := PresenceOffline, status := None)
  }

  function Sanitize(s: Snapshot): Snapshot {
    s.(accounts := seq(|s.accounts|, i requires 0 <= i < |s.accounts| => CleanAccount(s.accounts[i])),
       contacts := seq(|s.contacts|, i requires 0 <= i < |s.contacts| => CleanContact(s.contacts[i])))
  }

  /** Sanitizing clears the session of every account and the presence of every contact, in place; identity, names,
      settings and everything else stay as they are. */
  lemma SanitizeClearsTheSession(s: Snapshot)
    ensures var t := Sanitize(s);
            && t == s.(accounts := t.accounts, contacts := t.contacts)
            && |t.accounts| == |s.accounts| && |t.contacts| == |s.contacts|
            && (forall i :: 0 <= i < |s.accounts| ==>
                  var a := s.accounts[i];
                  t.accounts[i] == Account(a.id, a.jid, a.server, a.displayName, Offline, {}, None, None,
                                           a.autoReconnect, a.proxies))
            && (forall i :: 0 <= i < |s.contacts| ==>
                  var k := s.contacts[i];
                  t.contacts[i] == Contact(k.account, k.jid, k.displayName, PresenceOffline, None, k.subscription))
  {
  }

  lemma SanitizeIsIdempotent(s: Snapshot)
    ensures Sanitize(Sanitize(s)) == Sanitize(s)
  {
  }

  /** The records after a save and a load: the session state of accounts and contacts is gone. */
  ghost predicate Remembers(c: Core, d: Core) {
    && d.accounts == CleanAccounts(c.accounts) && d.contacts == CleanContacts(c.contacts)
    && d.conversations == c.conversations && d.messages == c.messages && d.reactions == c.reactions
  }

  function CleanAccounts(m: map<nat, Account>): map<nat, Account> {
    map a | a in m :: CleanAccount(m[a])
  }

  function CleanContacts(m: map<(nat, string), Contact>): map<(nat, string), Contact> {
    map k | k in m :: CleanContact(m[k])
  }

  lemma {:induction false} CollectCleanAccounts(xs: seq<Account>, ys: seq<Account>)
    requires |xs| == |ys| && (forall i :: 0 <= i < |xs| ==> ys[i] == CleanAccount(xs[i]))
    ensures Collect(ys, AccountKey) == CleanAccounts(Collect(xs, AccountKey))
  {
    if xs != [] {
      CollectCleanAccounts(xs[..|xs| - 1], ys[..|ys| - 1]);
    }
  }

  lemma {:induction false} CollectCleanContacts(xs: seq<Contact>, ys: seq<Contact>)
    requires |xs| == |ys| && (forall i :: 0 <= i < |xs| ==> ys[i] == CleanContact(xs[i]))
    ensures Collect(ys, ContactKey) == CleanContacts(Collect(xs, ContactKey))
  {
    if xs != [] {
      CollectCleanContacts(xs[..|xs| - 1], ys[..|ys| - 1]);
    }
  }

  /** Sanitizing before restoring is sanitizing what is restored. */
  lemma RestoreCommutesWithSanitize(s: Snapshot)
    ensures Remembers(Restore(s), Restore(Sanitize(s)))
  {
    hide Collect, CleanAccount, CleanContact;
    CollectCleanAccounts(s.accounts, Sanitize(s).accounts);
    CollectCleanContacts(s.contacts, Sanitize(s).contacts);
  }

  lemma RestoreOfSanitized(c: Core)
    requires Keyed(c)
    ensures Remembers(c, Restore(Sanitize(Take(c))))
  {
    hide Take, Restore, Sanitize;
    RestoreOfTake(c);
    RestoreCommutesWithSanitize(Take(c));
  }

  lemma RestoredIsPlaced(c: Core, d: Core)
    requires Placed(c) && Remembers(c, d)
    requires forall a :: a in d.accounts ==> a < d.nextAccount
    requires forall v :: v in d.conversations ==> v < d.nextConversation
    requires forall m :: m in d.messages ==> m < d.nextMessage
    requires forall r :: r in d.reactions ==> r < d.nextReaction
    ensures Placed(d)
  {
    forall a | a in d.accounts ensures GoodAccount(d, a) { assert GoodAccount(c, a); }
    forall k | k in d.contacts ensures GoodContact(d, k) { assert GoodContact(c, k); }
    forall v | v in d.conversations ensures GoodConversation(d, v) { assert GoodConversation(c, v); }
    forall m | m in d.messages ensures GoodMessage(d, m) { assert GoodMessage(c, m); }
    forall r | r in d.reactions ensures GoodReaction(d, r) { assert GoodReaction(c, r); }
  }

  lemma CollectBelowMax<T>(xs: seq<T>, key: T -> nat)
    ensures forall k :: k in Collect(xs, key) ==> k <= MaxKey(xs, key)
  {
    forall k | k in Collect(xs, key) ensures k <= MaxKey(xs, key) {
      CollectKeepsLast(xs, key, k);
    }
  }

  lemma RestoreIsBelowAllocators(s: Snapshot)
    ensures var d := Restore(s);
            && (forall a :: a in d.accounts ==> a < d.nextAccount)
            && (forall v :: v in d.conversations ==> v < d.nextConversation)
            && (forall m :: m in d.messages ==> m < d.nextMessage)
            && (forall r :: r in d.reactions ==> r < d.nextReaction)
  {
    CollectBelowMax(s.accounts, AccountKey);
    CollectBelowMax(s.conversations, ConversationKey);
    CollectBelowMax(s.messages, MessageKey);
    CollectBelowMax(s.reactions, ReactionKey);
  }

  /** A core restored from what another core saved satisfies the invariant and waits to send the same messages. */
  lemma RestoredCore(c: Core)
    requires Inv(c)
    ensures Keyed(c)
    ensures var d := Restore(Sanitize(Take(c)));
            && Inv(d) && Remembers(c, d)
            && forall a, m :: c.Waiting(a, m) <==> d.Waiting(a, m)
  {
    InvIsPlaced(c);
    PlacedIsKeyed(c);
    var d := Restore(Sanitize(Take(c)));
    RestoreOfSanitized(c);
    RestoreIsBelowAllocators(Sanitize(Take(c)));
    RestoredIsPlaced(c, d);
    SameTalkKeepsInv(c, d);
  }
}
