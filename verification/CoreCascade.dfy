/** Deleting an account or a conversation removes exactly what it owns. Ownership is defined here by walking the
    links from a record to its account, independently of how the removal loops find the records. */
module CoreCascade {
  import opened Domain
  import opened CoreState
  import opened CoreInvariant

  function OwnerOfConversation(c: Core, v: nat): nat
    requires v in c.conversations
  {
    c.conversations[v].account
  }

  function OwnerOfMessage(c: Core, m: nat): nat
    requires Placed(c) && m in c.messages
  {
    assert GoodMessage(c, m);
    OwnerOfConversation(c, c.messages[m].conversation)
  }

  function OwnerOfReaction(c: Core, r: nat): nat
    requires Placed(c) && r in c.reactions
  {
    assert GoodReaction(c, r);
    OwnerOfMessage(c, c.reactions[r].message)
  }

  predicate SameAllocators(c: Core, d: Core) {
    && c.nextAccount == d.nextAccount && c.nextConversation == d.nextConversation
    && c.nextMessage == d.nextMessage && c.nextReaction == d.nextReaction
  }

  /** `d` keeps no record `c` does not have, and keeps those it has unchanged. */
  ghost predicate OnlyRemoves(c: Core, d: Core) {
    && (forall a :: a in d.accounts ==> a in c.accounts && d.accounts[a] == c.accounts[a])
    && (forall k :: k in d.contacts ==> k in c.contacts && d.contacts[k] == c.contacts[k])
    && (forall v :: v in d.conversations ==> v in c.conversations && d.conversations[v] == c.conversations[v])
    && (forall m :: m in d.messages ==> m in c.messages && d.messages[m] == c.messages[m])
    && (forall r :: r in d.reactions ==> r in c.reactions && d.reactions[r] == c.reactions[r])
  }

  /** The account, its contacts, its conversations, their messages and their reactions go; everything owned by
      another account stays as it was. */
  lemma DeleteAccountRemovesExactlyTheOwned(c: Core, account: nat)
    requires Inv(c) && account in c.accounts
    ensures var d := c.DeleteAccount(account).core;
            && Inv(d) && SameAllocators(c, d) && OnlyRemoves(c, d)
            && d.events == c.events + [AccountChanged(account)]
            && (forall a :: a in c.accounts ==> (a in d.accounts <==> a != account))
            && (forall k :: k in c.contacts ==> (k in d.contacts <==> k.0 != account))
            && (forall v :: v in c.conversations ==> (v in d.conversations <==> OwnerOfConversation(c, v) != account))
            && (forall m :: m in c.messages ==> (m in d.messages <==> OwnerOfMessage(c, m) != account))
            && (forall r :: r in c.reactions ==> (r in d.reactions <==> OwnerOfReaction(c, r) != account))
  {
    hide Inv;
    InvIsPlaced(c);
    DeleteAccountKeepsInv(c, account);
    var doomed := c.ConversationsOf(account);
    forall m | m in c.messages ensures OwnerOfMessage(c, m) == account <==> c.InConversations(m, doomed) {
      assert GoodMessage(c, m);
    }
    forall r | r in c.reactions
      ensures OwnerOfReaction(c, r) == account <==> c.InConversations(c.reactions[r].message, doomed)
    {
      assert GoodReaction(c, r);
    }
  }

  /** One level down: a conversation takes its messages and their reactions with it, and nothing else. */
  lemma DeleteConversationRemovesExactlyTheOwned(c: Core, conversation: nat)
    requires Inv(c) && conversation in c.conversations
    ensures var d := c.DeleteConversation(conversation).core;
            && Inv(d) && SameAllocators(c, d) && OnlyRemoves(c, d)
            && d.events == c.events + [ConversationChanged(conversation)]
            && d.accounts == c.accounts && d.contacts == c.contacts
            && (forall v :: v in c.conversations ==> (v in d.conversations <==> v != conversation))
            && (forall m :: m in c.messages ==> (m in d.messages <==> c.messages[m].conversation != conversation))
            && (forall r :: r in c.reactions ==>
                       c.reactions[r].message in c.messages
                       && (r in d.reactions <==> c.messages[c.reactions[r].message].conversation != conversation))
  {
    hide Inv;
    InvIsPlaced(c);
    DeleteConversationKeepsInv(c, conversation);
    forall r | r in c.reactions ensures c.reactions[r].message in c.messages {
      assert GoodReaction(c, r);
    }
  }

  /** Removing conversations one at a time, in any order, is removing them together: what the deletion loops rely on. */
  lemma WithoutComposes(c: Core, first: set<nat>, second: set<nat>)
    ensures c.Without(first).Without(second) == c.Without(first + second)
  {
    var one := c.Without(first).Without(second);
    var both := c.Without(first + second);
    assert one.conversations == both.conversations;
    assert one.messages == both.messages;
    assert one.reactions == both.reactions;
  }

  function MessagesBut(messages: map<nat, Message>, gone: set<nat>): map<nat, Message> {
    map m | m in messages && m !in gone :: messages[m]
  }

  function ReactionsBut(reactions: map<nat, Reaction>, gone: set<nat>): map<nat, Reaction> {
    map r | r in reactions && reactions[r].message !in gone :: reactions[r]
  }

  /** Dropping the messages one by one, each with its reactions, drops them all. */
  lemma OneMoreMessage(messages: map<nat, Message>, reactions: map<nat, Reaction>, gone: set<nat>, m: nat)
    ensures MessagesBut(messages, gone) - {m} == MessagesBut(messages, gone + {m})
    ensures ReactionsBut(ReactionsBut(reactions, gone), {m}) == ReactionsBut(reactions, gone + {m})
  {
  }

  lemma NoMessageGone(messages: map<nat, Message>, reactions: map<nat, Reaction>)
    ensures MessagesBut(messages, {}) == messages && ReactionsBut(reactions, {}) == reactions
  {
  }

  lemma WithoutNone(c: Core)
    ensures c.Without({}) == c
  {
  }

  /** Removing conversations leaves accounts, contacts, allocators and log alone. */
  lemma WithoutKeepsRoster(c: Core, doomed: set<nat>)
    ensures var d := c.Without(doomed);
            c == d.(conversations := c.conversations, messages := c.messages, reactions := c.reactions)
  {
  }

  /** Removing one conversation, said in terms of the messages found in it. */
  lemma WithoutOne(c: Core, v: nat, found: set<nat>)
    requires found == set m | m in c.messages && c.messages[m].conversation == v
    ensures c.Without({v}) ==
            c.(conversations := c.conversations - {v}, messages := MessagesBut(c.messages, found),
               reactions := ReactionsBut(c.reactions, found))
  {
    assert forall m :: c.InConversations(m, {v}) <==> m in found;
  }
}
