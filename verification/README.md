# MindChat verification

MindChat is an XMPP client: a Rust core that owns the state and the network, and an Android application that
projects it. This project models the parts in which a mistake loses messages, and proves what they promise. All
claims are for every input and every run; nothing is bounded but where the program itself has a bound.

- **The core and its coordinator** (`Domain`, `CoreState`, `MindChatCore`, `Coordinator`, `Session`). `MindChatCore`
  and `TransportCoordinator` are classes with the program's fields, updated in place by methods that follow its
  branches and loops. Each method is verified against a function of `CoreState`, or to be one step of `Session`, whose
  runs mix handle commands, polls, flushes, arriving events and restores, with every answer of the transport chosen
  arbitrarily. The guarantees about runs are lemmas: the state invariant (`CoreInvariant`), exact cascades
  (`CoreCascade`), complete notification (`CoreNotify`), monotone delivery with provenance and ordered at-most-once
  sending (`CoreDelivery`, `CoreNumbering`, `Session`, `Lifetimes`), what one sent or received text does
  (`CoreTraffic`), connection states that follow the workers (`CoreConnectivity`), contacts that follow the roster
  (`CoreRoster`), which files load to a consistent core (`CoreLoad`), and what holds after a load of any file
  (`CoreLookup`, `Lifetimes`). What each operation and each command does to which field of which record, and that it
  does nothing else, is stated without the functions that compute it (`CoreEffects`, `SessionEffects`).
- **Outbox scheduling** (`GatewayOutbox`): the gateway's polls, suspended between their stages while the user goes on
  typing, and which accounts they leave with a message nobody will send.
- **Batched polling** (`Drain`): the drain planner and its loop against one long poll.
- **Persistence** (`CoreSnapshot`, `Persistence`, `AtomicWrite`, `Tracker`): restoring as a normal form, the plaintext
  and encrypted file formats, crash-safe concurrent writers, and dirty tracking by epochs under arbitrary
  interleaving. The last two are state machines over small steps.
- **The UI cache** (`UiCache`): the snapshot-to-UI mapping with its indexes and what it shows of a snapshot, the
  skip-if-unchanged refresh, and stall tracking across skipped refreshes.
- **The XMPP worker and connect pipeline** (`Worker`, `WorkerLog`, `Connect`): the worker loop as a step machine with a
  watchdog, what its log says of what it was handed, and candidate deduplication, ordering, grouping and trying.
- **Codecs** (`Socks5`, `HttpConnect`, `ProxyRefusal`, `Endpoint`, `ReceiptIds`, `ProxyCodec`, `ProxyLibrary`): SOCKS5
  framing, the answer to an HTTP CONNECT, server endpoints, XEP-0184 receipt identifiers, and the stored proxy library
  through restarts.

`Wrappers`, `Bytes`, `Text`, `Ordering`, `CoreOutbox` and `Streams` hold what the others share.

The JSON serializer and the cipher are parameters constrained by laws: decoding undoes encoding up to the one field
that is not serialized, an encoded state starts with `{`, and the cipher opens exactly what it sealed under the same
key and nonce. The escaped form in which error messages show a status line is a parameter without control characters.
IP-literal parsing, the timestamp formatter, clock values, worker and handshake outcomes, and the answers
of the file system are parameters or arbitrary choices.

Some promises hold only under a condition. It is proved exactly, but for the order of sends, where it is proved enough:

- An encrypted save that is accepted reloads if and only if its plaintext leaves room for the 37 bytes the layout adds,
  although the code comments promise that the app never writes a file it would refuse (`EncryptedRoundTrip`,
  `AcceptedSaveMayBeRefused`).
- A load keeps the core consistent if and only if the file has no dangling reference; the loader does not check, so a
  readable file with an orphaned record breaks the invariant (`ReachableCoresAreConsistent`, `AnOrphanBreaksTheCore`).
- Sends are in order unless a loaded file holds a waiting message of a conversation still to be opened; no message is
  sent twice in any case (`AfterAnyLoad`, `AMessageAdriftIsSentOutOfTurn`).
- A load is announced by the event log if and only if it changes nothing (`LoadIsAnnouncedIffNothingChanges`); the log
  is complete from there on (`CommandsAnnounce`).
- No mutation is lost because saves hold the mutex; without it, one is (`WithoutTheMutexMutationsAreLost`).
- An online account's waiting message is scheduled for the next poll unless a poll dropped the account with something
  still waiting, for which one refused send is enough, or the text was queued while another account was active
  (`UnscheduledIffStranded`, `ARestoredMessageCanBeStranded`, `ATextForAnotherAccountStrands`).
- A generated proxy identifier is new unless the 64-bit counter wraps (`NextIdIsTakenIffWrapped`).
- A stored library reads back unless a text holds a separator, a number is out of range or an error is the empty string
  (`LibraryRoundTrip`). Hosts and identifiers never hold one and the client's own messages do not, but an HTTP proxy
  words its own refusal (`OnlyReasonsCarrySeparators`), and for every entry there is a reason that adds it at the next
  start (`ARefusalCanAddAnEntry`). Assignments and credentials survive it all the same (`RestartIsSound`).

## Model

| member | source | states |
|---|---|---|
| `Session.ReachableCoresAreConsistent` | crates/mindchat-core/src/lib.rs:435-1316 | From the empty core, through any sequence of handle commands, polls, flushes with arbitrary transport answers, network arrivals and loads of any file: the core is consistent after every step if and only if every file loaded is sound. Consistent means: every record is owned, every id is below its allocator, replies answer older messages of the same conversation, conversations are unique per (account, kind, address), unread counts are bounded by arrivals, and no connecting or online account shows an old failure. |
| `Session.InvariantOfEveryRun` | crates/mindchat-core/src/ffi.rs:800-1300 | The same from any consistent core: every run whose loads are of sound files ends in a consistent core. |
| `CoreLoad.RestoresConsistentlyIffSound` | crates/mindchat-core/src/persistence.rs:188-330 | A file restores to a consistent core if and only if it has no dangling reference: every record it keeps has a positive id and a listed owner, replies answer an older message of their conversation, conversations are unambiguous and badges are covered by arrivals. |
| `CoreLoad.SavedIsSound` | crates/mindchat-core/src/lib.rs:479-494 | Everything a consistent core saves is such a file. |
| `Session.AnOrphanBreaksTheCore` | crates/mindchat-core/src/ffi.rs:1195-1226 | Loading a file with one message and no conversation is a run, and not a consistent one. |
| `CoreInvariant.OpKeepsInv` | crates/mindchat-core/src/lib.rs:496-1316 | Each of the mutators keeps the invariant, accepted or refused. |
| `CoreInvariant.RunKeepsInv` | crates/mindchat-core/src/lib.rs:496-1316 | So does any sequence of them. |
| `CoreInvariant.ThreadRoot` | crates/mindchat-core/src/lib.rs:815-852 | Reply chains are well-founded: from any message they end at an original post of the same conversation. |
| `CoreInvariant.LookupIsUnique` | crates/mindchat-core/src/lib.rs:751-790 | Where conversations are unambiguous, a lookup by account, kind and address has one possible answer, whatever order the map is searched in. |
| `CoreLookup.AppliesOnlyOne` | crates/mindchat-core/src/lib.rs:1229-1278 | Where they are not, as after a load of a file with duplicates, an arriving text may land in any conversation with its key; with unambiguous keys every event has exactly the one specified outcome. |
| `CoreLookup.EventKeepsUnambiguous` | crates/mindchat-core/src/lib.rs:678-748 | No event makes unambiguous conversations ambiguous, from any core, consistent or not. |
| `CoreInvariant.RefusedOpChangesNothing` | crates/mindchat-core/src/lib.rs:496-1316 | All or nothing: an operation that reports an error changed no map, no allocator and no event. |
| `CoreInvariant.TransportEventErrors` | crates/mindchat-core/src/lib.rs:678-748 | A transport event is refused if and only if it is text for a known account and a valid address whose body does not validate; the later error branches it is built from are unreachable. |
| `CoreInvariant.OpSucceeds` | crates/mindchat-core/src/lib.rs:1169-1191 | No operation reuses an identifier, lowers an allocator, or changes the owner, address or text of a record that stays. |
| `CoreInvariant.RunSucceeds` | crates/mindchat-core/src/lib.rs:1169-1191 | Neither does any sequence of operations. |
| `Domain.ValidJidIsBareAddress` | crates/mindchat-core/src/lib.rs:1510-1524 | The address validator accepts exactly the strings that are one local part, one `@` and one domain, both non-empty and free of whitespace, the domain without a resource. |
| `Domain.CheckedBodyIsStable` | crates/mindchat-core/src/lib.rs:1550-1559 | An accepted body is the trimmed text, 1 to 16384 characters, and validates again to itself; the empty error is for blank bodies only. |
| `CoreTraffic.SendAppendsToTheOutbox` | crates/mindchat-core/src/lib.rs:815-852 | Queueing a text puts exactly one envelope, with the trimmed text, recipient and reply target, at the end of its account's outbox and leaves every other outbox alone. |
| `CoreTraffic.ArrivingTextLandsOnce` | crates/mindchat-core/src/lib.rs:1229-1278 | An accepted incoming text is stored once under a new id in the conversation for its account, kind and address, whose badge rises by one unless full; every other record is untouched. |
| `CoreTraffic.NextTextJoinsIt` | crates/mindchat-core/src/lib.rs:1229-1278 | The next text for that address lands in the same conversation and opens no other. |
| `SessionEffects.WhatWaits` | crates/mindchat-core/src/lib.rs:969-1003 | A message waits for an account if and only if it is outgoing, pending or failed, and in a conversation of that account; its envelope carries its conversation, kind and address, its text and what it answers. |
| `SessionEffects.OldestFirst` | crates/mindchat-core/src/lib.rs:969-1003 | In the outbox the oldest message comes first. |
| `CoreOutbox.OutboxIsUnique` | crates/mindchat-core/src/lib.rs:969-1003 | The outbox is the only listing, oldest id first, of the pending and failed outgoing messages of an account. |
| `CoreCascade.DeleteAccountRemovesExactlyTheOwned` | crates/mindchat-core/src/lib.rs:1049-1066 | Deleting an account removes exactly its ownership closure, keeps every other record and all four allocators, and appends one event. |
| `CoreCascade.DeleteConversationRemovesExactlyTheOwned` | crates/mindchat-core/src/lib.rs:1072-1083 | The same one level down: a conversation, its messages and their reactions. |
| `CoreCascade.WithoutComposes` | crates/mindchat-core/src/lib.rs:1053-1061 | Removing conversations one after another is removing them together. |
| `CoreNotify.DrainedLogIsComplete` | crates/mindchat-core/src/lib.rs:1127-1129 | After a drain, whatever operations run, every account, contact, conversation, message or reaction that differs is covered by an event for it or for its owner. |
| `Session.CommandsAnnounce` | crates/mindchat-core/src/lib.rs:496-1132 | Over every run of commands, drains and loads of sound files among them: the log at the end covers every difference from the core at the last drain or load, or from the start if there was none. |
| `Session.LoadIsAnnouncedIffNothingChanges` | crates/mindchat-core/src/ffi.rs:1195-1226 | A load, which starts an empty log, is announced if and only if nothing was waiting to be drained and it neither brings, drops nor replaces a record. |
| `CoreNotify.AnnouncesComposes` | crates/mindchat-core/src/lib.rs:496-1132 | Coverage composes: a record added, changed and removed again under later owners stays covered. |
| `Session.DeliveryIsMonotone` | crates/mindchat-core/src/lib.rs:927-963 | Over every run within one core lifetime, whatever file it was loaded from, no message's delivery rank falls, through flushes, failures, receipts and deletions. |
| `Session.DeliveryHasProvenance` | crates/mindchat-core/src/lib.rs:927-963 | Whatever file the core was loaded from, a message that became Delivered or Read did so in a poll that applied a receipt to that effect whose account, sender and kind are those of the conversation record the message is in: its own peer, its own account, a direct conversation. |
| `CoreEffects.ReceiptsActForThePeerOnly` | crates/mindchat-core/src/lib.rs:927-963 | A receipt from the peer of a known outgoing message that says more than is known puts exactly that message in exactly that state; every other receipt changes nothing at all. |
| `CoreEffects.ReceiptAnswers` | crates/mindchat-core/src/lib.rs:927-963 | The answer says which of the two it was. |
| `CoreEffects.RanksFollowTheOrder` | crates/mindchat-core/src/lib.rs:1500-1508 | More is: pending, failed, sent, delivered, read, in this order. |
| `Session.SendsAreOrderedAndUnique` | crates/mindchat-core/src/lib.rs:1438-1458 | Per account, the ids of accepted sends strictly increase over all flushes of a lifetime, so none is accepted twice, through failures, retries, budget stops, receipts, new messages and deletes. It takes no more of the core than that no waiting message refers to a conversation still to be opened. |
| `Session.SendsFromAnEmptyCore` | crates/mindchat-core/src/lib.rs:1438-1458 | In particular from the empty core. |
| `Lifetimes.SendsAreUnique` | crates/mindchat-core/src/lib.rs:1438-1458 | That no message is accepted twice takes nothing but that messages are stored under their own ids, below the allocator. |
| `CoreNumbering.OpKeepsNumbered` | crates/mindchat-core/src/lib.rs:1169-1191 | Which every operation keeps, from any such core, and every file restores to. |
| `CoreNumbering.RestoredIsMooredIff` | crates/mindchat-core/src/lib.rs:452-475 | A file restores to a core in which order is safe if and only if its last record of each waiting message is in a conversation no higher than the highest the file lists. |
| `Lifetimes.AfterAnyLoad` | crates/mindchat-core/src/ffi.rs:1195-1226 | So in a lifetime that begins with a load of any file at all, no message is accepted twice and deliveries are monotone; and sends are in order if the file meets that condition. |
| `Lifetimes.AMessageAdriftIsSentOutOfTurn` | crates/mindchat-core/src/ffi.rs:1195-1226 | Without it they need not be: a file with a waiting message of a conversation it does not list, whose next conversation opened adopts it and sends it after a newer one. |
| `CoreDelivery.FlushEffect` | crates/mindchat-core/src/lib.rs:1438-1458 | A flush marks exactly the accepted prefix Sent and at most the next message Failed; every other message and record is as before, with one event per mark. |
| `CoreDelivery.FlushAdvances` | crates/mindchat-core/src/lib.rs:1500-1508 | Marking what waits never lowers a delivery rank. |
| `CoreDelivery.OpAdvances` | crates/mindchat-core/src/lib.rs:927-963 | Apart from a flush's marks, no operation lowers a delivery rank. |
| `CoreConnectivity.LastReportWins` | crates/mindchat-core/src/lib.rs:678-748 | Polling leaves each account as the last connectivity event for it reported: state, error and disconnect kind, whatever else was queued. |
| `CoreConnectivity.AccountFollowsItsWorker` | crates/mindchat-core/src/xmpp.rs:514-641 | Whatever the shared queue held for other accounts, and whatever earlier workers of this account left in it: once everything a running worker emitted is polled, its account is Online if and only if the worker's session is live; before its first report the worker has changed nothing. |
| `CoreConnectivity.ExitIsVisible` | crates/mindchat-core/src/xmpp.rs:482-641 | And once a worker that failed, went stale or lost its stream is polled, its account is Offline or Failed and says why. |
| `DomainCore.MindChatCore.Default` | crates/mindchat-core/src/lib.rs:434-447 | The empty core, which satisfies the invariant. |
| `DomainCore.MindChatCore.FromSnapshot` | crates/mindchat-core/src/lib.rs:452-475 | Restores any snapshot: allocators above the largest ids, later duplicates winning. |
| `DomainCore.MindChatCore.TakeSnapshot` | crates/mindchat-core/src/lib.rs:479-494 | The sorted listing of the maps, independent of their iteration order. |
| `DomainCore.MindChatCore.AddAccount` | crates/mindchat-core/src/lib.rs:496-519 | A valid address and server get the next id, offline and without failure; either refusal changes nothing. |
| `DomainCore.MindChatCore.SetConnectionState` | crates/mindchat-core/src/lib.rs:521-537 | Sets the state, clearing error and disconnect kind exactly when connecting or online; unknown accounts are refused. |
| `DomainCore.MindChatCore.SetCapabilities` | crates/mindchat-core/src/lib.rs:539-550 | Replaces the capabilities of a known account. |
| `DomainCore.MindChatCore.UpdateAccountDisplayName` | crates/mindchat-core/src/lib.rs:1085-1101 | Renames a known account; a blank name is refused before the account is looked up. |
| `DomainCore.MindChatCore.SetAccountProxies` | crates/mindchat-core/src/lib.rs:1106-1117 | Replaces the proxies of a known account. |
| `DomainCore.MindChatCore.UpsertContact` | crates/mindchat-core/src/lib.rs:555-582 | Stores a normalized contact for a known account and a valid address. |
| `DomainCore.MindChatCore.SyncRosterContact` | crates/mindchat-core/src/lib.rs:589-613 | Updates name and subscription, keeping known presence and status (`CoreEffects.PushesKeepPresence`); bad input is skipped, not refused. |
| `DomainCore.MindChatCore.RemoveContact` | crates/mindchat-core/src/lib.rs:620-638 | Removes a known contact and announces it; anything else is a silent no-op. |
| `DomainCore.MindChatCore.UpdateContactPresence` | crates/mindchat-core/src/lib.rs:645-668 | Updates presence and normalized status of a known contact only. |
| `DomainCore.MindChatCore.OpenConversation` | crates/mindchat-core/src/lib.rs:751-790 | Finds or creates the conversation, any of them where several share the key; errors in the order address, account, group-chat capability. |
| `DomainCore.MindChatCore.MarkConversationRead` | crates/mindchat-core/src/lib.rs:1029-1041 | Clears the badge of a known conversation. |
| `DomainCore.MindChatCore.SendText` | crates/mindchat-core/src/lib.rs:815-852 | Queues a pending message; errors in the order conversation, reply target, target in another conversation, body. |
| `DomainCore.MindChatCore.ReceiveText` | crates/mindchat-core/src/lib.rs:854-883 | Stores an incoming message and raises the badge, saturating. |
| `DomainCore.MindChatCore.ReceiveTransportText` | crates/mindchat-core/src/lib.rs:1229-1278 | Skips unknown accounts and bad addresses, refuses bad bodies before touching anything, otherwise finds or creates the conversation and stores the text. |
| `DomainCore.MindChatCore.Attach` | crates/mindchat-core/src/lib.rs:885-907 | Attaches to a known message if its account has uploads; plain text kind is refused. |
| `DomainCore.MindChatCore.AddReaction` | crates/mindchat-core/src/lib.rs:1006-1027 | Reacts to a known message if its account has reactions; a blank emoji is refused last. |
| `DomainCore.MindChatCore.SetDeliveryState` | crates/mindchat-core/src/lib.rs:909-920 | Sets the state of a known message. |
| `DomainCore.MindChatCore.ApplyDeliveryUpdate` | crates/mindchat-core/src/lib.rs:927-963 | Applies a receipt only for an outgoing message of a direct conversation with the sender on that account, and only upwards (`CoreEffects.ReceiptsActForThePeerOnly`). |
| `DomainCore.MindChatCore.PendingOutgoingMessages` | crates/mindchat-core/src/lib.rs:969-1003 | The outbox, found by a loop over the map in any order; an unknown account is an error. |
| `DomainCore.MindChatCore.RemoveConversationState` | crates/mindchat-core/src/lib.rs:1210-1222 | The nested removal loop deletes exactly the messages of the conversation and their reactions. |
| `DomainCore.MindChatCore.RemoveConversationsOf` | crates/mindchat-core/src/lib.rs:1053-1061 | Removing an account's conversations one by one, in any order, is removing them together. |
| `DomainCore.MindChatCore.DeleteConversation` | crates/mindchat-core/src/lib.rs:1072-1083 | Removes a known conversation and announces it once. |
| `DomainCore.MindChatCore.DeleteAccount` | crates/mindchat-core/src/lib.rs:1049-1066 | The loop over an account's conversations amounts to one removal of everything owned. |
| `DomainCore.MindChatCore.ApplyTransportEvent` | crates/mindchat-core/src/lib.rs:678-748 | Dispatches each event kind to its effect; only a bad text body is an error. |
| `DomainCore.MindChatCore.DrainEvents` | crates/mindchat-core/src/lib.rs:1127-1129 | Hands out the log in order and empties it, changing no record. |
| `CoreEffects.PushesKeepPresence` | crates/mindchat-core/src/lib.rs:589-613 | A roster push changes at most that contact: name and subscription are the pushed ones, presence and status what they were if it was known, Offline and none if not; a push for an unknown account or a malformed address changes nothing. |
| `CoreEffects.PresenceChangesPresenceOnly` | crates/mindchat-core/src/lib.rs:645-668 | A presence event changes presence and trimmed status of a known contact, and nothing else of anything. |
| `CoreEffects.RemovalRemovesTheContact` | crates/mindchat-core/src/lib.rs:620-638 | A removal removes that contact, if known, and nothing else. |
| `CoreEffects.AnswersSayWhetherItTookEffect` | crates/mindchat-core/src/lib.rs:589-668 | The answers of the three say whether they took effect. |
| `CoreEffects.UpsertStoresTheContact` | crates/mindchat-core/src/lib.rs:555-582 | A contact the user stores has the given presence, the trimmed status and name or else the local part, and no subscription; which check fails first is said. |
| `CoreRoster.ContactsFollowTheQueue` | crates/mindchat-core/src/lib.rs:678-748 | Over any queue: a contact that is known throughout shows the name and subscription of the last push for it and the presence and status of the last presence event, or what it showed before if there was none. |
| `CoreEffects.AddAccountStoresTheAccount` | crates/mindchat-core/src/lib.rs:496-519 | The account added is under the next id, offline, with nothing but what was given, and no other record differs. |
| `CoreEffects.SetConnectionStateSetsTheState` | crates/mindchat-core/src/lib.rs:521-537 | Of one account the state changes, and the failure if and only if the session is under way; nothing else does. |
| `CoreEffects.SetCapabilitiesSetsThem` | crates/mindchat-core/src/lib.rs:539-550 | Of one account the capabilities change, and nothing else. |
| `CoreEffects.RenameSetsTheName` | crates/mindchat-core/src/lib.rs:1085-1101 | Of one account the name changes, and nothing else. |
| `CoreEffects.SetAccountProxiesSetsThem` | crates/mindchat-core/src/lib.rs:1106-1117 | Of one account the proxies change, and nothing else. |
| `CoreEffects.ConnectivityEventsSetTheAccount` | crates/mindchat-core/src/lib.rs:678-748 | Connected, disconnected and discovered set the state, capabilities and failure of the known account they name, field by field, and nothing else. |
| `CoreEffects.OpenAddsAnEmptyConversation` | crates/mindchat-core/src/lib.rs:751-790 | Opening finds a conversation with that account, kind and address and changes nothing, or adds an empty one under the next id. |
| `CoreEffects.MarkReadClearsTheBadge` | crates/mindchat-core/src/lib.rs:1029-1041 | Of one conversation the badge changes, and nothing else. |
| `CoreEffects.SendStoresTheMessage` | crates/mindchat-core/src/lib.rs:815-852 | The message stored is the trimmed text, outgoing and pending, and its conversation shows the time and the old badge; which check fails first is said. |
| `CoreEffects.ReceiveStoresTheMessage` | crates/mindchat-core/src/lib.rs:854-883 | The message stored is the trimmed text, incoming and delivered, and the badge of its conversation is one higher unless full. |
| `CoreEffects.NetworkTextIsReceived` | crates/mindchat-core/src/lib.rs:1229-1278 | Text from the network is received in a conversation with that account, kind and address, a new one being titled by the local part of the address. |
| `CoreEffects.BodiesAreChecked` | crates/mindchat-core/src/lib.rs:1550-1559 | A body is refused as empty if and only if it is blank, and as too long if and only if more than 16384 characters are left of it. |
| `CoreEffects.AttachSetsTheAttachment` | crates/mindchat-core/src/lib.rs:885-907 | Of one message kind and attachment change, if the account of its conversation can upload; nothing else does. |
| `CoreEffects.AddReactionAddsTheReaction` | crates/mindchat-core/src/lib.rs:1006-1027 | One reaction is added under the next id, if the account can react and the emoji is not blank. |
| `CoreEffects.SetDeliveryStateSetsTheState` | crates/mindchat-core/src/lib.rs:909-920 | Of one known message the delivery state changes, and nothing else. |
| `CoreEffects.DeletingTheUnknownIsRefused` | crates/mindchat-core/src/lib.rs:1049-1083 | Deleting is refused if and only if the record is not there, and then changes nothing. |
| `CoreSnapshot.NormalForm` | crates/mindchat-core/src/lib.rs:452-494 | Restoring and listing again is idempotent, sorted, and the identity on what a core lists. |
| `CoreSnapshot.NormalIffSorted` | crates/mindchat-core/src/lib.rs:479-494 | A snapshot survives a restore unchanged if and only if it is sorted with distinct keys. |
| `CoreSnapshot.ListingsCountUpwards` | crates/mindchat-core/src/lib.rs:479-494 | What a core lists counts upwards: by id, and contacts by account and then by address in dictionary order. |
| `CoreSnapshot.NormalFormKeepsLast` | crates/mindchat-core/src/lib.rs:452-475 | In each of the five lists the normal form holds a record if and only if it is the last one listed under its key. |
| `CoreSnapshot.CollectKeepsLast` | crates/mindchat-core/src/lib.rs:463-475 | Collecting into a map keeps the last record per key, for every kind of record. |
| `CoreSnapshot.RestoredAllocatorsAreFresh` | crates/mindchat-core/src/lib.rs:453-457 | After any restore the next id of each kind is one more than the largest id in the snapshot, or one. |
| `CoreSnapshot.RestoreCommutesWithSanitize` | crates/mindchat-core/src/persistence.rs:318-330 | Sanitizing before restoring is sanitizing what is restored. |
| `CoreSnapshot.RestoredCore` | crates/mindchat-core/src/persistence.rs:318-330 | What a consistent core saved restores to a consistent core with the same durable records and the same waiting messages. |
| `CoreSnapshot.SanitizeIsIdempotent` | crates/mindchat-core/src/persistence.rs:318-330 | Sanitizing twice is sanitizing once. |
| `CoreSnapshot.SanitizeClearsTheSession` | crates/mindchat-core/src/persistence.rs:318-330 | Every account becomes offline without failure and capabilities, every contact offline without status, in place; everything else of every record is kept. |
| `Coordinator.TransportCoordinator.ConnectWithProxy` | crates/mindchat-core/src/lib.rs:1385-1409 | One connect step of a run: it succeeds if and only if the account is known, has no worker and one starts. It leaves the account Connecting if it succeeds, Failed if the transport refuses, without a failure shown either way. |
| `SessionEffects.ConnectSetsTheAccount` | crates/mindchat-core/src/lib.rs:1385-1409 | Of the account only the state changes and the failure is cleared; a worker is there afterwards if it was accepted, and as before if not; one or two events say so. |
| `Coordinator.TransportCoordinator.Disconnect` | crates/mindchat-core/src/lib.rs:1415-1424 | One disconnect step: the worker is released either way; the core is told if and only if it existed and confirmed, and that cannot fail. |
| `SessionEffects.DisconnectSetsTheAccount` | crates/mindchat-core/src/lib.rs:1415-1424 | Confirmed, the account is offline and called off; either way the worker is gone and nothing else changed. |
| `Coordinator.TransportCoordinator.FlushOutbox` | crates/mindchat-core/src/lib.rs:1438-1458 | Offline accounts are untouched; otherwise one flush step: messages are sent in order until 16 are, one is refused, or the time budget is spent, exactly as counted on the wire, and an error means the next one was refused. |
| `SessionEffects.FlushSendsTheFirst` | crates/mindchat-core/src/lib.rs:1438-1458 | The wire gets the first waiting messages in order; those are marked sent, the one refused failed, and no other message or record differs. |
| `Coordinator.TransportCoordinator.PollNextEvent` | crates/mindchat-core/src/lib.rs:1467-1473 | Consumes one event whether or not it applies, from any core, consistent or not; only an empty queue answers false. With unambiguous conversations it is the poll step of a run. |
| `Coordinator.TransportCoordinator.PollTransportEvents` | crates/mindchat-core/src/lib.rs:1482-1497 | Consumes exactly min(queued, requested, 128) events in order, skipping failing ones, and retires the workers of polled disconnects; with unambiguous conversations it is one poll step of a run. |
| `SessionEffects.PollTakesFromTheFront` | crates/mindchat-core/src/lib.rs:1482-1497 | Each further event polled is the next of the queue: it is applied to the core, and if it is a disconnect its account has no worker any more. |
| `Coordinator.TransportCoordinator.DeleteAccount` | crates/mindchat-core/src/ffi.rs:1072-1087 | Releases a tracked worker and removes the account; unknown accounts are refused. |
| `SessionEffects.DeletionReleasesTheWorker` | crates/mindchat-core/src/ffi.rs:1072-1087 | A known account loses its worker with its records; an unknown one changes nothing. |
| `Coordinator.TransportCoordinator.LoadState` | crates/mindchat-core/src/ffi.rs:1195-1226 | Refused if and only if accounts or workers exist; otherwise replaces the core by what the file restores to, which for a sanitized file is the load step of a run. |
| `Coordinator.TokioXmppTransport.Connect` | crates/mindchat-core/src/xmpp.rs:222-286 | Refuses an account with a worker; otherwise a worker is tracked exactly when it started. |
| `Coordinator.TokioXmppTransport.Disconnect` | crates/mindchat-core/src/xmpp.rs:288-309 | Untracks the worker whether or not it confirms. |
| `Coordinator.TokioXmppTransport.NextEvent` | crates/mindchat-core/src/xmpp.rs:330-338 | First in, first out; a polled disconnect retires its account's worker. |
| `Coordinator.PollsCompose` | crates/mindchat-core/src/lib.rs:1482-1497 | Polling some events and then more is polling them at once: core, queue and workers. |
| `Drain.DrainTransportEvents` | app/src/main/java/com/mindchat/app/MindChatGateway.kt:667-680 | With n events queued, min(n / 128 + 1, 4) polls leave the core as one fold over the first min(n, 512) events. |
| `Drain.ClampNeverShrinksABatch` | app/src/main/java/com/mindchat/app/GatewayPoll.kt:50-63 | In every cycle the planner allows, whatever arrives meanwhile, there are at most four polls, all but the last full, each asking for 128: the per-cycle budget never shrinks a request. |
| `Drain.WhatIsAskedNext` | app/src/main/java/com/mindchat/app/GatewayPoll.kt:50-63 | Another batch is asked for if and only if the last was full, fewer than 4 polls were made and fewer than 512 events came; 128 of them, or what is left of the 512. |
| `Drain.FailingEventsAreNoOps` | crates/mindchat-core/src/lib.rs:1482-1497 | An event that fails to apply leaves the fold as if it had never been queued. |
| `Persistence.PlainRoundTrip` | crates/mindchat-core/src/persistence.rs:119-136 | Every accepted plaintext save loads as the sanitized snapshot, by either loader, as legacy under any key. |
| `Persistence.WhatIsSaved` | crates/mindchat-core/src/persistence.rs:119-263 | A save writes schema version 1, or is refused as too large if and only if that takes more than 16777216 bytes. |
| `Persistence.HeadersAreChecked` | crates/mindchat-core/src/state_cipher.rs:65-90 | A file is encrypted if and only if it starts with the nine header bytes; it opens from 37 bytes on, to what the cipher finds after the 12 bytes of the nonce. |
| `Persistence.WhatLoadsAnswer` | crates/mindchat-core/src/persistence.rs:188-309 | The two loaders case by case: no file, one of more than 16777216 bytes, one that does not decrypt, does not parse or has another version than 1, and otherwise its state sanitized, with the size of the file. |
| `Persistence.EncryptedRoundTrip` | crates/mindchat-core/src/persistence.rs:246-309 | An accepted encrypted save loads as the sanitized snapshot if and only if the plaintext is at most the file bound minus 37 bytes; otherwise the loader reports it too large. |
| `Persistence.AcceptedSaveMayBeRefused` | crates/mindchat-core/src/persistence.rs:253-259 | A plaintext of exactly the file bound is saved encrypted and then refused by the loader. |
| `Persistence.DecryptsIffSealed` | crates/mindchat-core/src/state_cipher.rs:74-90 | A blob opens under a key to a plaintext if and only if it is the layout of that plaintext sealed under that key with some nonce. |
| `Persistence.ForeignKeyIsRefused` | crates/mindchat-core/src/persistence.rs:280-309 | Among keys whose sealings never coincide, a file opens under the key that sealed it and is a decryption failure, never half-read, under any other. |
| `Persistence.RestartKeepsTheOutbox` | crates/mindchat-core/src/persistence.rs:318-330 | Through a save and a load the core stays consistent, keeps its durable records and every account's outbox, allocates fresh ids, and lists again to the same snapshot. |
| `Persistence.RestartThroughAFile` | crates/mindchat-core/src/persistence.rs:119-309 | That snapshot is what a plaintext file yields, and an encrypted one up to the size that leaves room for its layout. |
| `Persistence.SanitizeSnapshot` | crates/mindchat-core/src/persistence.rs:318-330 | The in-place loops clear exactly the session state of accounts and contacts. |
| `Persistence.EncryptState` | crates/mindchat-core/src/state_cipher.rs:41-63 | Builds magic, nonce, ciphertext and tag: 37 bytes more than the plaintext, opening to it; a failing random source, key setup or sealing is an encryption error that says which. |
| `Persistence.StateFile.SaveState` | crates/mindchat-core/src/persistence.rs:119-136 | Installs the serialized file or leaves the old one, and says which; over-size snapshots are refused before writing. |
| `Persistence.StateFile.SaveStateEncrypted` | crates/mindchat-core/src/persistence.rs:246-263 | The same for the encrypted layout, the bound being checked before encryption; a failed encryption leaves the old file too. |
| `Persistence.StateFile.LoadStateWithMetadata` | crates/mindchat-core/src/persistence.rs:188-221 | Missing, too large, unreadable, corrupt, wrong version or loaded and sanitized, the size being judged before the bytes are read. |
| `Persistence.StateFile.LoadStateEncrypted` | crates/mindchat-core/src/persistence.rs:280-309 | Tells encrypted files from legacy ones by the header, and loads either; the same refusals, and those of decryption. |
| `AtomicWrite.PathIsAlwaysComplete` | crates/mindchat-core/src/persistence.rs:147-163 | In every interleaving of saves, failures and crashes, lost renames and torn unsynced data included, the path shows its original contents or the complete bytes of one save. |
| `AtomicWrite.StepsOfASave` | crates/mindchat-core/src/persistence.rs:147-163 | What each step needs and does: only what is complete is synced, only what is synced is renamed. |
| `AtomicWrite.StagingNamesDiffer` | crates/mindchat-core/src/persistence.rs:338-343 | Two saves of a process share a staging name only if they share a counter value, and no staging name is the path. |
| `AtomicWrite.PathChangesByRenameOnly` | crates/mindchat-core/src/persistence.rs:147-163 | No step but a rename changes the path, and a rename installs exactly its save's bytes: a failing save leaves the path untouched. |
| `AtomicWrite.OthersAreUntouched` | crates/mindchat-core/src/persistence.rs:338-343 | No step of one save touches another's staging file. |
| `AtomicWrite.FileSystem.WriteAtomic` | crates/mindchat-core/src/persistence.rs:147-163 | One save succeeds if and only if none of its steps fails: then the path shows its bytes, otherwise what it showed; other saves are undisturbed. |
| `Tracker.NoMutationIsEverLost` | app/src/main/java/com/mindchat/app/MindChatGateway.kt:138-156 | From the start of a process, in every interleaving of mutations, marks, checks and saves under the mutex, if `requiresSave` answers false, every mutation marked before it was called is in the state file when it answers. |
| `Tracker.NoMutationIsLost` | app/src/main/java/com/mindchat/app/MindChatGateway.kt:682-689 | The same from any state in which the disk covers the persisted epoch: if `requiresSave` answers false, every mutation marked before it was called is in the state file when it answers. |
| `Tracker.WithoutTheMutexMutationsAreLost` | app/src/main/java/com/mindchat/app/MindChatGateway.kt:954-963 | Without the mutex this fails: twelve steps of two overlapping saves lose a marked mutation while nothing is dirty. |
| `Tracker.EpochsAreMonotone` | app/src/main/java/com/mindchat/app/MindChatGateway.kt:138-156 | The persisted epoch never falls and never passes the mutation epoch, mutex or not. |
| `Tracker.PublishingTerminates` | app/src/main/java/com/mindchat/app/MindChatGateway.kt:150-155 | Against any interference the publishing loop fails at most once per epoch it is behind. |
| `Tracker.FailedCompareShrinksTheGap` | app/src/main/java/com/mindchat/app/MindChatGateway.kt:150-155 | A failed compare-and-set means the distance left to publish has shrunk. |
| `Tracker.FinishedSaveAcknowledges` | app/src/main/java/com/mindchat/app/MindChatGateway.kt:954-963 | A finished save has published at least its epoch; with no later mutation nothing is dirty. |
| `Tracker.PersistenceStateTracker.RequiresSave` | app/src/main/java/com/mindchat/app/MindChatGateway.kt:146 | Two reads with interference between them: false if and only if the persisted epoch is the mutation epoch of the call, and then, with saves under the mutex, every mutation marked before the call is in the state file. |
| `Tracker.PersistenceStateTracker.MarkMutation` | app/src/main/java/com/mindchat/app/MindChatGateway.kt:142-144 | One step of the machine: a mutation already applied becomes one the next save must cover. |
| `Tracker.PersistenceStateTracker.CaptureSaveEpoch` | app/src/main/java/com/mindchat/app/MindChatGateway.kt:148 | The epoch of a save, and its taking the mutex, as one step of the machine. |
| `Tracker.PersistenceStateTracker.SaveSnapshot` | app/src/main/java/com/mindchat/app/MindChatGateway.kt:954-963 | One save with interference between its steps: saved means that every mutation marked before the call is in the state file and its epoch published; not saved leaves the file alone. |
| `Tracker.PersistenceStateTracker.MarkPersisted` | app/src/main/java/com/mindchat/app/MindChatGateway.kt:150-155 | The loop terminates against interference and leaves the highest of the old epoch, its own, and what others published. |
| `UiCache.CacheRefinesRebuilding` | app/src/main/java/com/mindchat/app/MindChatGateway.kt:879-916 | After every sequence of input changes and refreshes, the gateway that skips publishes the same state, active account and stall bookkeeping as one that always rebuilds. |
| `UiCache.SkipIsRebuild` | app/src/main/java/com/mindchat/app/GatewayMapping.kt:223-255 | A skipped refresh would have rebuilt exactly what is published, at any clock value. |
| `UiCache.SkippedRebuildIsANoOp` | app/src/main/java/com/mindchat/app/GatewayMapping.kt:41-169 | With nothing connecting, mapping a mapping's own result again changes nothing. |
| `UiCache.ClockIsIrrelevantUnlessConnecting` | app/src/main/java/com/mindchat/app/GatewayMapping.kt:55-87 | The clock matters to a mapping only while some account is connecting. |
| `UiCache.ActiveResolutionIsIdempotent` | app/src/main/java/com/mindchat/app/GatewayMapping.kt:88-93 | Resolving the resolved active account again gives it back. |
| `UiCache.CachedStallTracking` | app/src/main/java/com/mindchat/app/GatewayMapping.kt:55-87 | Through the cache, an account is tracked if and only if a connecting run of it has begun and not been seen settled, since the clock value of that run's first refresh. |
| `UiCache.StalledIffRunIsOld` | app/src/main/java/com/mindchat/app/GatewayMapping.kt:82-84 | An account is shown stalled if and only if it is connecting and its run began more than 35000 ms ago. |
| `UiCache.EntryIsStartOfRun` | app/src/main/java/com/mindchat/app/GatewayMapping.kt:55-67 | The tracking entry is the clock value of the mapping that began the present run. |
| `UiCache.MapSnapshotToUiState` | app/src/main/java/com/mindchat/app/GatewayMapping.kt:41-169 | Indexing reactions and messages once gives the state that filtering the lists for every record would; and that state pictures the snapshot field by field. |
| `UiCache.MappingPictures` | app/src/main/java/com/mindchat/app/GatewayMapping.kt:41-169 | Against the snapshot itself: each conversation lists exactly its messages in snapshot order, a message is mine if and only if it is outgoing and only then shows its own delivery state, with a label per emoji in order of first use and the number of uses; the preview is the last body or empty; badge, title, address and kind are those of the record; contacts and accounts show their own presence, status and failure; the active account is the one asked for if it is there, else the first. |
| `UiCache.DisplayIsCurrent` | app/src/main/java/com/mindchat/app/MindChatGateway.kt:879-916 | After any run of changes and refreshes that ends with a refresh, rebuilt or skipped: the display pictures the snapshot just taken, with the inputs last set, and shows as stalled exactly the connecting accounts whose unbroken run of such refreshes began more than 35000 ms before. |
| `UiCache.GroupBy` | app/src/main/java/com/mindchat/app/GatewayMapping.kt:97-100 | A lookup in the one-pass index is a filter of the list. |
| `UiCache.CountLabels` | app/src/main/java/com/mindchat/app/GatewayMapping.kt:102-106 | One label per emoji, in order of first use, with its count. |
| `UiCache.FirstOccurrencesAreTheElements` | app/src/main/java/com/mindchat/app/GatewayMapping.kt:102-106 | Every emoji used gets a label and none gets two. |
| `UiCache.NativeMindChatGateway.Refresh` | app/src/main/java/com/mindchat/app/MindChatGateway.kt:879-916 | Publishes what a full rebuild would, and so pictures the snapshot, whether or not it rebuilds; it skips, changing nothing, if and only if snapshot, active account and inputs are those on display and nothing is connecting. |
| `UiCache.NativeMindChatGateway.SelectAccount` | app/src/main/java/com/mindchat/app/MindChatGateway.kt:368-373 | Switches only to an account on display, and publishes as a rebuild would. |
| `Worker.WorkerConnectivity` | crates/mindchat-core/src/xmpp.rs:465-641 | From the connect phase on, the session is live exactly when the last connectivity event emitted is Connected; any exit but by command or closed channel has just reported Disconnected; every event is for the worker's own account. |
| `Worker.StepIsCoherent` | crates/mindchat-core/src/xmpp.rs:538-641 | Every branch of the loop keeps that. |
| `Worker.StaleSessionIsReported` | crates/mindchat-core/src/xmpp.rs:579-608 | A watchdog tick on a live session reports it if and only if it has been idle for more than 180 seconds, and then the worker goes on exactly if it may reconnect. |
| `Worker.QuietSessionsAreReportedInTime` | crates/mindchat-core/src/xmpp.rs:579-608 | In every run, no session stays live for more than 210 seconds after its last inbound event, plus the longest delay with which the loop took a branch past a due tick. |
| `Worker.LiveSessionsWereHeardFrom` | crates/mindchat-core/src/xmpp.rs:538-608 | So in every run of every worker, a live session was heard from within the last 210 seconds plus that delay. |
| `Worker.TranslationIsOwn` | crates/mindchat-core/src/xmpp.rs:1448-1522 | Stanzas never change connectivity and only speak for the worker's own account. |
| `WorkerLog.TheLogIsWhatWasHeard` | crates/mindchat-core/src/xmpp.rs:1407-1706 | Over every run of every worker: the texts, receipts, presences, roster changes, discoveries and connections of its log are, kind by kind and in order, exactly those of what its client handed it. A text is a chat stanza with a sender and a body that is not blank, with that sender, body and time; a receipt a known id in a chat or normal stanza with a sender; and so on for each kind. |
| `WorkerLog.StanzaYields` | crates/mindchat-core/src/xmpp.rs:1448-1522 | One stanza gives its receipts, then its text, or its presence, its roster changes in order, or its capabilities joined to those of the stream. |
| `WorkerLog.ClientTurns` | crates/mindchat-core/src/xmpp.rs:1407-1484 | What a client event does to the session, field by field: online, lost with its kind, recoverability and text, or a stanza. |
| `WorkerLog.TurnsPossible` | crates/mindchat-core/src/xmpp.rs:538-641 | Any turn until the worker has ended, timers only while the session is live and due. |
| `WorkerLog.LostSessionsAreClassified` | crates/mindchat-core/src/xmpp.rs:1302-1400 | Which cause is which disconnect kind; only rejected credentials and failed certificate checks are final; the worker goes on if and only if it may reconnect, the loss is not final and the retry budget is not spent. |
| `WorkerLog.OtherTurns` | crates/mindchat-core/src/xmpp.rs:538-641 | Commands and a closed channel end the worker silently, the end of the stream is reported as recoverable, and a ping moves its timer to the next multiple of 45 seconds. |
| `WorkerLog.WatchdogTurns` | crates/mindchat-core/src/xmpp.rs:579-608 | A watchdog tick says nothing, and moves to the next multiple of 30 seconds, unless more than 180 seconds passed in silence; then it reports the loss. |
| `WorkerLog.StartIsSilentOrSaysWhy` | crates/mindchat-core/src/xmpp.rs:429-536 | A worker starts silent if it is called off, with the reason if it cannot connect, and not yet live. |
| `Worker.HandleClientEvent` | crates/mindchat-core/src/xmpp.rs:1407-1484 | The events, flags and loop action of one client event, which `WorkerLog.ClientTurns` spells out. |
| `Worker.RunWorker` | crates/mindchat-core/src/xmpp.rs:429-641 | The loop over any script of turns emits the step machine's log, of which `WorkerLog.TheLogIsWhatWasHeard` speaks, and stops where it stops. |
| `Connect.KeepFirstIsAtFirstPositions` | crates/mindchat-core/src/xmpp.rs:1253-1256 | Deduplication reads off exactly the first occurrences, left to right. |
| `Connect.KeepFirstElements` | crates/mindchat-core/src/xmpp.rs:1253-1256 | It loses no candidate, repeats none, and is idempotent. |
| `Connect.DedupeCandidates` | crates/mindchat-core/src/xmpp.rs:1253-1256 | The loop with its seen-set computes that. |
| `Connect.OrderIsAStableSort` | crates/mindchat-core/src/xmpp.rs:1758-1761 | Ordering SRV answers is a stable sorted permutation: priority ascending, weight descending. |
| `Connect.BetterAnswersComeFirst` | crates/mindchat-core/src/xmpp.rs:1758-1761 | Of two answers the one with the lower priority comes first, and at the same priority the one with the higher weight. |
| `Connect.StableSortIsUnique` | crates/mindchat-core/src/xmpp.rs:1758-1761 | There is only one such ordering. |
| `Connect.GroupAttempts` | crates/mindchat-core/src/xmpp.rs:676-691 | Flattening the groups gives back the candidates; groups are non-empty and uniform; neighbours differ. |
| `Connect.GroupingIsUnique` | crates/mindchat-core/src/xmpp.rs:676-691 | Those three properties determine the grouping. |
| `Connect.ConnectAttempt` | crates/mindchat-core/src/xmpp.rs:704-737 | A missing proxy fails first; otherwise the first success, else the first non-recoverable failure with no later group tried, else the last failure, else no candidates. Every group tried has an address. |
| `Socks5.GreetingAndAuthRoundTrip` | crates/mindchat-core/src/proxy.rs:311-358 | Methods, user name and password of up to 255 bytes read back exactly, whatever follows on the wire (RFC 1928 section 3, RFC 1929 section 2). |
| `Socks5.GreetingAndAuthBytes` | crates/mindchat-core/src/proxy.rs:311-358 | The greeting is the bytes 5, 1, 0 without a password and 5, 2, 0, 2 with one; the authentication request 1, 0, the length and the password, cut to 255 bytes. |
| `Socks5.ShortReplies` | crates/mindchat-core/src/proxy.rs:325-382 | Which two bytes answer the greeting and the authentication request, and what each other answer means. |
| `Socks5.RequestRoundTrip` | crates/mindchat-core/src/proxy.rs:384-419 | A request is refused if and only if a name is empty or over 255 bytes; otherwise a proxy decodes the very host bytes and 16-bit port (RFC 1928 section 4). |
| `Socks5.RequestBytes` | crates/mindchat-core/src/proxy.rs:384-419 | The request is the bytes 5, 1, 0, the address under its type 1, 3 or 4, and the port high byte first. |
| `Socks5.AcceptedIffGranted` | crates/mindchat-core/src/proxy.rs:422-467 | A reply is accepted if and only if it is 5, 0, 0, an address type and exactly as many bytes as that type announces. |
| `Socks5.WhyRepliesAreRefused` | crates/mindchat-core/src/proxy.rs:422-467 | Every other reply is refused for the first thing wrong with it: its length, version, reserved byte, address type, framing, or the code the proxy refuses with. |
| `Socks5.ReadsExactlyTheReply` | crates/mindchat-core/src/proxy.rs:580-606 | A reply is read if and only if the connection starts with a well-framed one, and nothing more is consumed (RFC 1928 section 6). |
| `Socks5.FramedRepliesParse` | crates/mindchat-core/src/proxy.rs:422-467 | The parser never reports a length error for a well-framed reply, and accepts it exactly for version 5, success and a zero reserved byte. |
| `Socks5.RepliesArePrefixFree` | crates/mindchat-core/src/proxy.rs:422-467 | No well-framed reply is a proper prefix of another. |
| `Socks5.AcceptedRepliesAreFramed` | crates/mindchat-core/src/proxy.rs:422-467 | Whatever the parser accepts, or reports as a refusal code, is well framed. |
| `Socks5.ReadSocks5ConnectReply` | crates/mindchat-core/src/proxy.rs:580-606 | The piecewise reads return exactly the reply and leave the rest of the connection. |
| `Socks5.Socks5Handshake` | crates/mindchat-core/src/proxy.rs:539-576 | Succeeds if and only if the proxy takes the password or asks for none and grants the connection, a password it asks for is there, and the address can be named. Then the greeting bytes, the password if and only if asked for, and the request were sent, and what is unread is exactly what follows the reply. |
| `HttpConnect.ReadHttpResponseHeaders` | crates/mindchat-core/src/proxy.rs:626-648 | Succeeds if and only if the first blank line ends within 16384 bytes, splitting the stream there and losing nothing; cut short if and only if a stream within the bound has no blank line. |
| `Endpoint.ExplicitEndpoint` | crates/mindchat-core/src/proxy.rs:215-224 | `host:port` names that very host, whitespace before the colon included, and that port. |
| `Endpoint.BracketedEndpoint` | crates/mindchat-core/src/proxy.rs:684-709 | `[host]:port` does so for every host without a closing bracket. |
| `Endpoint.TargetIsAccepted` | crates/mindchat-core/src/proxy.rs:201-208 | A host and port are accepted if and only if the host is one word, whitespace around it aside, and the port is not zero; the host is kept as written. |
| `Endpoint.EdgesAreIgnored` | crates/mindchat-core/src/proxy.rs:215-224 | Whitespace around the whole field never matters. |
| `Endpoint.BareServer` | crates/mindchat-core/src/proxy.rs:215-224 | Without an explicit port the trimmed server is used verbatim with port 5223, and refused if it holds whitespace. |
| `Endpoint.PortsAreNumerals` | crates/mindchat-core/src/proxy.rs:684-709 | A port is a decimal numeral of at most 65535, with or without a plus sign. |
| `Endpoint.BracketsAreChecked` | crates/mindchat-core/src/proxy.rs:684-700 | An open bracket needs a closing one, and after that nothing, or a colon and a port: each other case has its refusal. |
| `Endpoint.PortsAreChecked` | crates/mindchat-core/src/proxy.rs:701-709 | What follows the only colon must be a port. |
| `Endpoint.TargetsAreUsable` | crates/mindchat-core/src/proxy.rs:199-225 | Every target has a port of 1 to 65535 and a host that is more than whitespace; a blank server is refused. |
| `ReceiptIds.ReceiptNamesItsMessage` | crates/mindchat-core/src/xmpp.rs:1529-1547 | The stanza id of a message parses back to it for every id from 1 to 2^64 - 1, and for no other. |
| `ReceiptIds.ParsesIffNumeral` | crates/mindchat-core/src/xmpp.rs:1618-1624 | An id names a message if and only if it is the prefix and ASCII digits of a value in that range. |
| `ReceiptIds.OtherIdsAreNotReceipts` | crates/mindchat-core/src/xmpp.rs:1711-1717 | No roster, discovery, ping, receipt or registration id parses as a message id. |
| `ProxyCodec.LibraryRoundTrip` | app/src/main/java/com/mindchat/app/Proxy.kt:137-145 | A stored library, the empty one included, reads back if and only if its texts avoid the separators, its numbers fit and no error is the empty string. |
| `ProxyCodec.EntryRoundTrip` | app/src/main/java/com/mindchat/app/Proxy.kt:181-206 | Decoding undoes encoding for every such entry. |
| `ProxyCodec.StoredForm` | app/src/main/java/com/mindchat/app/Proxy.kt:181-189 | The bytes of a record: id, host, port, kind, latency and error in this order, between unit separators. |
| `ProxyCodec.WhatRecordsMean` | app/src/main/java/com/mindchat/app/Proxy.kt:191-206 | A record reads as an entry if and only if it has four fields, a 32-bit port and a known kind; a missing, empty or unreadable latency and a missing or empty error are none. |
| `ProxyCodec.AssignmentsRoundTrip` | app/src/main/java/com/mindchat/app/Proxy.kt:147-165 | Assignments read back whatever order they were written in, but for assignments to an empty identifier. |
| `ProxyCodec.LibraryRestores` | app/src/main/java/com/mindchat/app/Proxy.kt:137-206 | What any library restores to, entry by entry: itself with its error text cut at the first separator, followed by whatever entries the rest of that text spells. |
| `ProxyCodec.RestartKeepsIds` | app/src/main/java/com/mindchat/app/Proxy.kt:137-206 | Every id of a library is an id of what it restores to, whatever the error texts. |
| `ProxyCodec.DecodedLibraryIsClean` | app/src/main/java/com/mindchat/app/Proxy.kt:137-206 | Whatever was stored, what is read is clean: one restart repairs a library for good. |
| `ProxyCodec.NextIdIsTakenIffWrapped` | app/src/main/java/com/mindchat/app/Proxy.kt:90-95 | The next id is already in the library if and only if the 64-bit counter wraps onto it. |
| `ProxyCodec.NextIdIsOneMore` | app/src/main/java/com/mindchat/app/Proxy.kt:90-95 | The next id is `p1`, or one more than the largest number an id has, wrapping. |
| `ProxyLibrary.FreshIdInheritsNothing` | app/src/main/java/com/mindchat/app/Proxy.kt:90-95 | In any anchored state, short of that wrap-around, the next id names no entry, no assignment and no stored credential. |
| `ProxyLibrary.FindsTheFirst` | app/src/main/java/com/mindchat/app/Proxy.kt:97-99 | The search by configuration finds the first entry with that host, port and kind, and finds one whenever there is one. |
| `ProxyLibrary.ConfigsAreValidated` | app/src/main/java/com/mindchat/app/GatewayInput.kt:209-214 | A configuration is valid if and only if the host is one word and the port from 1 to 65535. |
| `ProxyLibrary.ProxyGateway.constructor` | app/src/main/java/com/mindchat/app/MindChatGateway.kt:313-314 | A start reads library and assignments from the preferences, whatever they hold; over stores in which every assignment and credential names an entry, the gateway is valid. |
| `ProxyLibrary.ProxyGateway.RestartIsSound` | app/src/main/java/com/mindchat/app/Proxy.kt:137-165 | At every point of every run, what the preferences and the key store hold is such a start: the assignments read back, every id stays an id, and the library reads back if and only if it is clean, and otherwise as its entries restore. |
| `ProxyLibrary.ProxyGateway.Restart` | app/src/main/java/com/mindchat/app/Proxy.kt:137-165 | So a restart from any reachable gateway is again a valid gateway, with the same assignments and credentials and every id of the library. |
| `ProxyLibrary.ProxyGateway.WriteAssignments` | app/src/main/java/com/mindchat/app/Proxy.kt:147-165 | Listing the map in any order stores what reads back to it. |
| `ProxyLibrary.ARefusalCanAddAnEntry` | crates/mindchat-core/src/proxy.rs:488-515 | Every entry one could configure is spelled by a reason some HTTP proxy can give, and a refusal for that reason, on a first start with one proxy, restores with that entry. |
| `ProxyLibrary.ValidHostsAreFree` | app/src/main/java/com/mindchat/app/GatewayInput.kt:209-214 | A host that validates holds no separator. |
| `ProxyLibrary.ProxyGateway.AddProxy` | app/src/main/java/com/mindchat/app/MindChatGateway.kt:720-729 | Appends one untested entry under the next id, with its credential if given; unless the counter wrapped, that id had no entry, no assignment and no credential; a clean library stays clean. |
| `ProxyLibrary.ProxyGateway.UpdateProxy` | app/src/main/java/com/mindchat/app/MindChatGateway.kt:731-746 | Rewrites the entry, dropping its stale probe, and nothing else. |
| `ProxyLibrary.ProxyGateway.DeleteProxy` | app/src/main/java/com/mindchat/app/MindChatGateway.kt:748-761 | Removes the entry, its credential and exactly the assignments to it, in the preferences too. |
| `ProxyLibrary.ProxyGateway.PingProxy` | app/src/main/java/com/mindchat/app/MindChatGateway.kt:763-783 | Records the probe on the entry and nothing else; from a clean library the new one is clean if and only if the error is absent, or non-empty and free of separators. |
| `ProxyLibrary.ProxyGateway.PingHttpProxy` | crates/mindchat-core/src/proxy.rs:488-515 | Probing an HTTP proxy from a clean library leaves a clean one if and only if the answer is no refusal or its reason holds no separator. |
| `ProxyRefusal.RenderedIsFree` | crates/mindchat-core/src/proxy.rs:248-279 | The text of every proxy error is non-empty, and free of separators if and only if the part of it that came from outside is. |
| `ProxyRefusal.ReasonsAreThePhrases` | crates/mindchat-core/src/proxy.rs:488-515 | The reasons a proxy can give are exactly the texts whose words are joined by single spaces, with any 16-bit status but 200. |
| `ProxyRefusal.AnswersAreJudged` | crates/mindchat-core/src/proxy.rs:488-515 | An answer is taken if and only if the first two words of its first line are an HTTP version and 200; it is a refusal with the rest as its reason for any other 16-bit status, and malformed otherwise. |
| `ProxyRefusal.WhatErrorsSay` | crates/mindchat-core/src/proxy.rs:249-279 | The words each error is shown in. |
| `ProxyRefusal.OnlyReasonsCarrySeparators` | crates/mindchat-core/src/proxy.rs:488-515 | Of all answers to a CONNECT request only a refusal whose reason holds a separator is rendered with one: status lines are shown escaped. |
| `ProxyRefusal.SpellingsArePhrases` | crates/mindchat-core/src/proxy.rs:514-515 | An entry spelled as a record is such a reason. |
| `ProxyRefusal.ErrorTextCanAddAnEntry` | app/src/main/java/com/mindchat/app/Proxy.kt:181-206 | The stored text of such a refusal restores as the probed entry with its error cut short, followed by the spelled entry if and only if the spelling ends in a separator: otherwise the closing bracket spoils its kind. |
| `ProxyLibrary.ProxyGateway.SetAccountProxy` | app/src/main/java/com/mindchat/app/MindChatGateway.kt:785-812 | Assigns the entry found by its configuration; refused by the core, the assignments are as before, in the preferences too. |
| `ProxyLibrary.ProxyGateway.ClearAccountProxy` | app/src/main/java/com/mindchat/app/MindChatGateway.kt:785-792 | Removes the assignment of one account, in the preferences too, as deleting the account does. |
| `ProxyLibrary.ProxyGateway.AssignedProxyEntry` | app/src/main/java/com/mindchat/app/MindChatGateway.kt:844-847 | An account connects through an entry if and only if it has an assignment: none dangles. |
| `ProxyLibrary.ProxyGateway.ReadEntries` | app/src/main/java/com/mindchat/app/Proxy.kt:137-145 | What the next start reads is the library if and only if it is clean, and otherwise what its entries restore to. |
| `GatewayOutbox.UnscheduledIffStranded` | app/src/main/java/com/mindchat/app/MindChatGateway.kt:574-646 | In every run of polls, events, texts and user commands, between polls, a waiting message of an account shown online is unscheduled if and only if some step of the run stranded the account, a poll dropping it while something waited or a text queued for it while another account was active, and it has not been scheduled since. |
| `GatewayOutbox.EndOfPollStrands` | app/src/main/java/com/mindchat/app/MindChatGateway.kt:632-644 | A finishing poll leaves an account it had scheduled unscheduled exactly if it was shown online before, is online in the snapshot, and something still waits. |
| `GatewayOutbox.WhatStillWaitsFellShort` | app/src/main/java/com/mindchat/app/MindChatGateway.kt:598-625 | If something still waits when a poll has taken its snapshot, the flush of that account in this poll found it offline, stopped before the end of its outbox, or was followed by another text for it. |
| `GatewayOutbox.OnlyTextsMakeItWait` | app/src/main/java/com/mindchat/app/MindChatGateway.kt:545-646 | Only a text queued for it gives an account something to send: no event, command or flush does. |
| `GatewayOutbox.ATextForAnotherAccountStrands` | app/src/main/java/com/mindchat/app/MindChatGateway.kt:547-559 | A text leaves the account of its conversation unscheduled exactly if that account is online, not scheduled already, and not the active one. |
| `GatewayOutbox.ARefusalLeavesTheMessage` | app/src/main/java/com/mindchat/app/MindChatGateway.kt:598-634 | One refused send is enough: the poll drops the account with its message still waiting. |
| `GatewayOutbox.ARestoredMessageCanBeStranded` | app/src/main/java/com/mindchat/app/MindChatGateway.kt:574-646 | From any restart with a message in an account's outbox: the account comes online, its first send is refused, and the message is stranded. |
| `GatewayOutbox.RunIsAccounted` | app/src/main/java/com/mindchat/app/MindChatGateway.kt:545-646 | Through every run, each account shown online with something to send is scheduled, about to be scheduled by the poll under way, or was stranded and not scheduled since. |
| `GatewayOutbox.StagesOfAPoll` | app/src/main/java/com/mindchat/app/MindChatGateway.kt:574-646 | Stage by stage: a poll takes the scheduled accounts with it, ends after an empty drain if none of them was shown online, else flushes each that is online once, looks who is online, drops them and schedules whoever came online meanwhile. |
| `GatewayOutbox.UserSteps` | app/src/main/java/com/mindchat/app/MindChatGateway.kt:545-559 | An accepted text schedules the active account and nobody else; a refused one changes nothing; other commands schedule nobody. |

## Left out

- 64-bit wrap-around of the core's identifiers: they are unbounded here; the proxy library's counter is modelled with its wrap-around.
- The transport's closed-channel branch: the transport keeps a sender of its own event channel, so the branch is never taken, and its poll error is not part of the model.
- Two events of different workers queued around a reconnect: a polled disconnect retires whatever worker its account has, as in the code; no claim is made that it was that worker's own.
- XEP-0077 registration: the handle's registration is an exchange with the server followed by adding and connecting an account, which are modelled.
- DNS, TLS, tokio, XML and stanza parsing: the worker model starts from parsed stanzas and typed client errors; racing the addresses inside a group is one arbitrary answer.
- Loop timing: missed ticks are skipped as in the code, but the order in which ready branches are taken is arbitrary, and how late a branch may be taken is not bounded: the watchdog's 210 seconds are stated plus that delay.
- The weighted random selection of RFC 2782: the code sorts, and that is what is modelled.
- A connection that fails while it is written to: in the proxy handshakes writes always arrive, and reads may end early.
- The HTTP CONNECT request, and decoding its answer from UTF-8: plain text formatting, and a library call.
- Unicode digits: numerals are read in ASCII digits only.
- Locale and time-zone changes: the timestamp formatter is one fixed function, so a cached state is not compared across such a change.
- `UiCache.CachedStallTracking`: assumes that account identifiers are distinct within a snapshot, which `CoreSnapshotsAreDistinct` proves of every snapshot of the core.
- `ProxyLibrary.ProxyGateway.SetAccountProxy`: whether the core accepts the account is a parameter; the core's own copy of the configuration is not tied to the library, which the code does not keep in step either.
- A crash between two preference writes of one proxy operation, and an undecryptable stored credential: preferences and the key store are plain maps here.
- `Persistence.ForeignKeyIsRefused`: is about keys whose sealings never coincide; of a real cipher that is true only with overwhelming probability.
- `Persistence.StateFile.WriteAtomic`: taken as all-or-nothing there; the small-step model of it is `AtomicWrite`.
- Two processes writing one state file: the writers of `AtomicWrite` belong to one process at a time.
- Directory durability: a crash may undo renames in `AtomicWrite`, so a completed save may be lost to a crash, though never torn.
- The diagnostics report, quarantine renaming and the restore of a file at startup by the gateway: metadata and file moves without a further property.
- `Session.CommandsAnnounce`: is about loads of sound files; what the log covers after a load of any other is left open.
- `Session.SendsAreOrderedAndUnique`: that no waiting message is adrift is enough for order; that every file with one can break it is not claimed.
- Which of several conversations with one key a lookup finds: the classes allow any; a run fixes one. A file with such conversations is not sound, and the theorems about all files do not depend on the choice.
- Key setup failing while decrypting: the key has the right length by its type, and then the setup cannot fail.
- The error path of a poll: a batch of events never fails as a whole here, since the coordinator skips the events that do.
- Compose screens, preferences, biometric lock, settings schema, latency buckets and enum conversions: true but easy, or platform calls.
