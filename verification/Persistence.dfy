/** State files: what a save writes, what a load answers, and when one undoes the other. */
module Persistence {
  import opened Wrappers
  import opened Bytes
  import opened Domain
  import opened Ordering
  import opened CoreState
  import opened CoreInvariant
  import opened CoreSnapshot
  import opened CoreOutbox

  const CURRENT_SCHEMA_VERSION: nat := 1
  const MAX_STATE_FILE_BYTES: nat := 16 * 1024 * 1024

  datatype PersistedState = PersistedState(schemaVersion: nat, snapshot: Snapshot)

  datatype Metadata = Metadata(sizeBytes: nat, schemaVersion: nat)

  datatype PersistenceError =
    | Io | Corrupt | UnsupportedVersion(version: nat) | TooLarge(bytes: nat) | NotEncrypted | Decryption
    | Encryption(detail: string)

  datatype LoadOutcome =
    | Missing
    | PlaintextLegacy(snapshot: Snapshot, metadata: Metadata)
    | Encrypted(snapshot: Snapshot, metadata: Metadata)

  // ----- the serializer and the cipher, by their laws ---------------------------------------------

  datatype Json = Json(encode: PersistedState -> seq<Byte>, decode: seq<Byte> -> Option<PersistedState>)

  /** The disconnect kind of an account is not serialized. */
  function Serialized(s: Snapshot): Snapshot {
    s.(accounts := seq(|s.accounts|, i requires 0 <= i < |s.accounts| => s.accounts[i].(disconnectKind := None)))
  }

  /** Decoding undoes encoding, and an encoded state is a JSON object. */
  ghost predicate Faithful(json: Json) {
    forall p :: var bytes := json.encode(p);
                && bytes != [] && bytes[0] == '{' as nat
                && json.decode(bytes) == Some(p.(snapshot := Serialized(p.snapshot)))
  }

  type Key = k: seq<Byte> | |k| == 32 witness seq(32, _ => 0)
  type Nonce = n: seq<Byte> | |n| == 12 witness seq(12, _ => 0)

  const NONCE_LEN: nat := 12
  const TAG_LEN: nat := 16

  /** AES-256-GCM over the fixed associated data. */
  datatype Aead = Aead(seal: (Key, Nonce, seq<Byte>) -> seq<Byte>, open: (Key, Nonce, seq<Byte>) -> Option<seq<Byte>>)

  /** An ideal cipher: the tag adds 16 bytes, and only what was sealed under the key and nonce opens. */
  ghost predicate Ideal(aead: Aead) {
    && (forall k, n, p :: |aead.seal(k, n, p)| == |p| + TAG_LEN)
    && (forall k, n, p, c :: aead.open(k, n, c) == Some(p) <==> c == aead.seal(k, n, p))
  }

  /** Keys in use that never seal to the same bytes, whatever the plaintexts. */
  ghost predicate Separates(aead: Aead, keys: set<Key>) {
    forall k, l, n, p, q :: k in keys && l in keys && k != l ==> aead.seal(k, n, p) != aead.seal(l, n, q)
  }

  /** What may fail while encrypting: the random source, the key setup, the sealing. */
  datatype Crypto = Works | NoRandom | NoKey | NoSeal

  function CryptoError(crypto: Crypto): Option<PersistenceError> {
    match crypto
    case Works => None
    case NoRandom => Some(Encryption("secure RNG unavailable"))
    case NoKey => Some(Encryption("AES-256-GCM key setup failed"))
    case NoSeal => Some(Encryption("AES-GCM seal failed"))
  }

  // ----- the encrypted layout ---------------------------------------------------------------------

  const MAGIC: seq<Byte> :=
    ['M' as nat, 'I' as nat, 'N' as nat, 'D' as nat, 'C' as nat, 'H' as nat, 'A' as nat, 'T' as nat, 1]
  const MIN_ENCRYPTED_LEN: nat := 37

  predicate IsEncryptedBlob(bytes: seq<Byte>) {
    |MAGIC| <= |bytes| && bytes[..|MAGIC|] == MAGIC
  }

  function Blob(aead: Aead, key: Key, nonce: Nonce, plain: seq<Byte>): seq<Byte> {
    MAGIC + nonce + aead.seal(key, nonce, plain)
  }

  function DecryptState(aead: Aead, key: Key, blob: seq<Byte>): Result<seq<Byte>, PersistenceError> {
    if |blob| < MIN_ENCRYPTED_LEN || !IsEncryptedBlob(blob) then Err(NotEncrypted)
    else
      var nonce: Nonce := blob[|MAGIC|..|MAGIC| + NONCE_LEN];
      match aead.open(key, nonce, blob[|MAGIC| + NONCE_LEN..])
      case None => Err(Decryption)
      case Some(plain) => Ok(plain)
  }

  /** A blob opens under a key exactly when it was sealed under that key, and then to what was sealed. */
  lemma DecryptsIffSealed(aead: Aead, key: Key, blob: seq<Byte>, plain: seq<Byte>)
    requires Ideal(aead)
    ensures DecryptState(aead, key, blob) == Ok(plain) <==> exists nonce: Nonce :: blob == Blob(aead, key, nonce, plain)
  {
    if DecryptState(aead, key, blob) == Ok(plain) {
      var nonce: Nonce := blob[|MAGIC|..|MAGIC| + NONCE_LEN];
      assert blob == blob[..|MAGIC|] + nonce + blob[|MAGIC| + NONCE_LEN..];
      assert blob == Blob(aead, key, nonce, plain);
    }
    if nonce: Nonce :| blob == Blob(aead, key, nonce, plain) {
      BlobLayout(aead, key, nonce, plain);
    }
  }

  lemma BlobLayout(aead: Aead, key: Key, nonce: Nonce, plain: seq<Byte>)
    requires Ideal(aead)
    ensures var blob := Blob(aead, key, nonce, plain);
            && |blob| == |plain| + MIN_ENCRYPTED_LEN && IsEncryptedBlob(blob)
            && blob[|MAGIC|..|MAGIC| + NONCE_LEN] == nonce
            && blob[|MAGIC| + NONCE_LEN..] == aead.seal(key, nonce, plain)
            && DecryptState(aead, key, blob) == Ok(plain)
  {
    var blob := Blob(aead, key, nonce, plain);
    assert blob[..|MAGIC|] == MAGIC;
    assert blob[|MAGIC|..|MAGIC| + NONCE_LEN] == nonce;
    assert blob[|MAGIC| + NONCE_LEN..] == aead.seal(key, nonce, plain);
    assert aead.open(key, nonce, aead.seal(key, nonce, plain)) == Some(plain);
  }

  // ----- what saves write and loads answer ---------------------------------------------------------

  function Plaintext(json: Json, s: Snapshot): seq<Byte> {
    json.encode(PersistedState(CURRENT_SCHEMA_VERSION, s))
  }

  function PlainFile(json: Json, s: Snapshot): Result<seq<Byte>, PersistenceError> {
    var bytes := Plaintext(json, s);
    if |bytes| > MAX_STATE_FILE_BYTES then Err(TooLarge(|bytes|)) else Ok(bytes)
  }

  function EncryptedFile(json: Json, aead: Aead, key: Key, nonce: Nonce, s: Snapshot): Result<seq<Byte>,
                         PersistenceError> {
    var bytes := Plaintext(json, s);
    if |bytes| > MAX_STATE_FILE_BYTES then Err(TooLarge(|bytes|)) else Ok(Blob(aead, key, nonce, bytes))
  }

  function ParseStateBytes(json: Json, bytes: seq<Byte>): Result<(Snapshot, Metadata), PersistenceError> {
    match json.decode(bytes)
    case None => Err(Corrupt)
    case Some(persisted) =>
      if persisted.schemaVersion != CURRENT_SCHEMA_VERSION then Err(UnsupportedVersion(persisted.schemaVersion))
      else Ok((Sanitize(persisted.snapshot), Metadata(|bytes|, persisted.schemaVersion)))
  }

  function PlainLoad(json: Json, file: Option<seq<Byte>>): Result<Option<(Snapshot, Metadata)>, PersistenceError> {
    if file.None? then Ok(None)
    else if |file.value| > MAX_STATE_FILE_BYTES then Err(TooLarge(|file.value|))
    else
      match ParseStateBytes(json, file.value)
      case Err(e) => Err(e)
      case Ok(loaded) => Ok(Some(loaded))
  }

  function EncryptedLoad(json: Json, aead: Aead, key: Key, file: Option<seq<Byte>>): Result<LoadOutcome,
                         PersistenceError> {
    if file.None? then Ok(Missing)
    else if |file.value| > MAX_STATE_FILE_BYTES then Err(TooLarge(|file.value|))
    else if IsEncryptedBlob(file.value) then
      match DecryptState(aead, key, file.value)
      case Err(e) => Err(e)
      case Ok(plain) =>
        match ParseStateBytes(json, plain)
        case Err(e) => Err(e)
        case Ok(loaded) => Ok(Encrypted(loaded.0, loaded.1.(sizeBytes := |file.value|)))
    else
      match ParseStateBytes(json, file.value)
      case Err(e) => Err(e)
      case Ok(loaded) => Ok(PlaintextLegacy(loaded.0, loaded.1))
  }

  // ----- case by case -------------------------------------------------------------------------------

  /** A save writes schema version 1, up to 16 MiB of it. */
  lemma WhatIsSaved(json: Json, aead: Aead, key: Key, nonce: Nonce, s: Snapshot)
    ensures var bytes := json.encode(PersistedState(1, s));
            if |bytes| > 16777216 then
              PlainFile(json, s) == EncryptedFile(json, aead, key, nonce, s) == Err(TooLarge(|bytes|))
            else
              && PlainFile(json, s) == Ok(bytes)
              && EncryptedFile(json, aead, key, nonce, s) == Ok(Blob(aead, key, nonce, bytes))
  {
  }

  /** A file is encrypted if it starts with the nine header bytes; it opens only from 37 bytes on, to what the cipher
      finds after the twelve bytes of the nonce. */
  lemma HeadersAreChecked(aead: Aead, key: Key, blob: seq<Byte>)
    ensures IsEncryptedBlob(blob) <==> |blob| >= 9 && blob[..9] == [77, 73, 78, 68, 67, 72, 65, 84, 1]
    ensures DecryptState(aead, key, blob) ==
            if |blob| < 37 || !IsEncryptedBlob(blob) then Err(NotEncrypted)
            else if aead.open(key, blob[9..21], blob[21..]).None? then Err(Decryption)
            else Ok(aead.open(key, blob[9..21], blob[21..]).value)
  {
  }

  /** What the bytes of a state are taken for: version 1 and no other, sanitized. */
  ghost predicate IsState(json: Json, bytes: seq<Byte>, s: Snapshot) {
    exists saved :: json.decode(bytes) == Some(PersistedState(1, saved)) && s == Sanitize(saved)
  }

  ghost predicate IsStateError(json: Json, bytes: seq<Byte>, e: PersistenceError) {
    if json.decode(bytes).None? then e == Corrupt
    else json.decode(bytes).value.schemaVersion != 1
         && e == UnsupportedVersion(json.decode(bytes).value.schemaVersion)
  }

  lemma StatesAreChecked(json: Json, bytes: seq<Byte>)
    ensures match ParseStateBytes(json, bytes)
            case Ok((s, metadata)) => IsState(json, bytes, s) && metadata == Metadata(|bytes|, 1)
            case Err(e) => IsStateError(json, bytes, e)
  {
    hide Sanitize;
    if json.decode(bytes).Some? && json.decode(bytes).value.schemaVersion == 1 {
      assert json.decode(bytes) == Some(PersistedState(1, json.decode(bytes).value.snapshot));
    }
  }

  /** What the two loaders answer: nothing for no file, a refusal for one of more than 16 MiB, and otherwise the state
      in it, decrypted first if and only if it is encrypted, or why there is none. The size reported is that of the
      file. */
  lemma WhatLoadsAnswer(json: Json, aead: Aead, key: Key, bytes: seq<Byte>)
    ensures PlainLoad(json, None) == Ok(None) && EncryptedLoad(json, aead, key, None) == Ok(Missing)
    ensures var plain, any := PlainLoad(json, Some(bytes)), EncryptedLoad(json, aead, key, Some(bytes));
            if |bytes| > 16777216 then plain == Err(TooLarge(|bytes|)) && any == Err(TooLarge(|bytes|))
            else
              && (match plain
                  case Ok(loaded) =>
                    && loaded.Some? && loaded.value.1 == Metadata(|bytes|, 1)
                    && IsState(json, bytes, loaded.value.0)
                  case Err(e) => IsStateError(json, bytes, e))
              && match any
                 case Ok(Missing) => false
                 case Ok(PlaintextLegacy(s, metadata)) =>
                   !IsEncryptedBlob(bytes) && metadata == Metadata(|bytes|, 1) && IsState(json, bytes, s)
                 case Ok(Encrypted(s, metadata)) =>
                   && IsEncryptedBlob(bytes) && metadata == Metadata(|bytes|, 1)
                   && DecryptState(aead, key, bytes).Ok? && IsState(json, DecryptState(aead, key, bytes).value, s)
                 case Err(e) =>
                   if !IsEncryptedBlob(bytes) then IsStateError(json, bytes, e)
                   else if DecryptState(aead, key, bytes).Err? then e == DecryptState(aead, key, bytes).error
                   else IsStateError(json, DecryptState(aead, key, bytes).value, e)
  {
    hide ParseStateBytes, IsState, IsStateError, IsEncryptedBlob, DecryptState;
    StatesAreChecked(json, bytes);
    if DecryptState(aead, key, bytes).Ok? {
      StatesAreChecked(json, DecryptState(aead, key, bytes).value);
    }
  }

  // ----- round trips --------------------------------------------------------------------------------

  lemma SanitizeSerialized(s: Snapshot)
    ensures Sanitize(Serialized(s)) == Sanitize(s)
  {
  }

  lemma MagicIsNotAnObject(bytes: seq<Byte>)
    ensures IsEncryptedBlob(bytes) ==> bytes[0] == MAGIC[0] && bytes[0] != '{' as nat
  {
    if IsEncryptedBlob(bytes) {
      assert bytes[..|MAGIC|][0] == bytes[0];
    }
  }

  lemma ParseOfPlaintext(json: Json, s: Snapshot)
    requires Faithful(json)
    ensures var bytes := Plaintext(json, s);
            && !IsEncryptedBlob(bytes)
            && ParseStateBytes(json, bytes) == Ok((Sanitize(s), Metadata(|bytes|, CURRENT_SCHEMA_VERSION)))
  {
    SanitizeSerialized(s);
    MagicIsNotAnObject(Plaintext(json, s));
  }

  /** A plaintext save that is accepted always loads, as the sanitized snapshot, by either loader and any key. */
  lemma PlainRoundTrip(json: Json, aead: Aead, key: Key, s: Snapshot)
    requires Faithful(json) && PlainFile(json, s).Ok?
    ensures var file := PlainFile(json, s).value;
            var metadata := Metadata(|file|, CURRENT_SCHEMA_VERSION);
            && PlainLoad(json, Some(file)) == Ok(Some((Sanitize(s), metadata)))
            && EncryptedLoad(json, aead, key, Some(file)) == Ok(PlaintextLegacy(Sanitize(s), metadata))
  {
    ParseOfPlaintext(json, s);
  }

  /** An encrypted save that is accepted loads exactly when the plaintext leaves room for the 37 bytes the layout
      adds; otherwise the loader refuses the very file the save wrote. */
  lemma EncryptedRoundTrip(json: Json, aead: Aead, key: Key, nonce: Nonce, s: Snapshot)
    requires Faithful(json) && Ideal(aead) && EncryptedFile(json, aead, key, nonce, s).Ok?
    ensures var file := EncryptedFile(json, aead, key, nonce, s).value;
            var load := EncryptedLoad(json, aead, key, Some(file));
            && |file| == |Plaintext(json, s)| + MIN_ENCRYPTED_LEN
            && (load == Ok(Encrypted(Sanitize(s), Metadata(|file|, CURRENT_SCHEMA_VERSION)))
                <==> |Plaintext(json, s)| <= MAX_STATE_FILE_BYTES - MIN_ENCRYPTED_LEN)
            && (|Plaintext(json, s)| > MAX_STATE_FILE_BYTES - MIN_ENCRYPTED_LEN ==> load == Err(TooLarge(|file|)))
  {
    hide Sanitize, Serialized;
    ParseOfPlaintext(json, s);
    BlobLayout(aead, key, nonce, Plaintext(json, s));
  }

  /** The gap between what is accepted and what loads: a full-size plaintext is saved and then refused. */
  lemma AcceptedSaveMayBeRefused(json: Json, aead: Aead, key: Key, nonce: Nonce, s: Snapshot)
    requires Faithful(json) && Ideal(aead) && |Plaintext(json, s)| == MAX_STATE_FILE_BYTES
    ensures EncryptedFile(json, aead, key, nonce, s).Ok?
    ensures EncryptedLoad(json, aead, key, Some(EncryptedFile(json, aead, key, nonce, s).value)) ==
            Err(TooLarge(MAX_STATE_FILE_BYTES + 37))
  {
    EncryptedRoundTrip(json, aead, key, nonce, s);
  }

  /** Among keys that are kept apart, a file opens under the one that sealed it and is refused, never half-read, under
      any other. */
  lemma ForeignKeyIsRefused(json: Json, aead: Aead, keys: set<Key>, key: Key, other: Key, nonce: Nonce, s: Snapshot)
    requires Faithful(json) && Ideal(aead) && Separates(aead, keys) && key in keys && other in keys
    requires |Plaintext(json, s)| <= MAX_STATE_FILE_BYTES - MIN_ENCRYPTED_LEN
    ensures var file := Some(Blob(aead, key, nonce, Plaintext(json, s)));
            if other == key then EncryptedLoad(json, aead, other, file).Ok?
            else EncryptedLoad(json, aead, other, file) == Err(Decryption)
  {
    hide Plaintext;
    var plain := Plaintext(json, s);
    BlobLayout(aead, key, nonce, plain);
    ParseOfPlaintext(json, s);
    var sealed := aead.seal(key, nonce, plain);
    var answer := aead.open(other, nonce, sealed);
    var q := if answer.Some? then answer.value else [];
    assert answer == Some(q) <==> sealed == aead.seal(other, nonce, q);
  }

  // ----- what a restart keeps ------------------------------------------------------------------------

  lemma SameOutbox(c: Core, d: Core, account: nat)
    requires c.conversations == d.conversations && c.messages == d.messages
    ensures Outbox(d, account) == Outbox(c, account)
  {
    hide Outbox;
    var q := Outbox(c, account);
    OutboxIsListing(c, account);
    OutboxIsUnique(d, account, q);
  }

  lemma OutboxIsListing(c: Core, account: nat)
    ensures var q := Outbox(c, account);
            && Ascending(q, EnvelopeKey, NatLess)
            && forall e :: e in q <==> c.Waiting(account, e.message) && e == c.Envelope(e.message)
  {
  }

  /** What a consistent core leaves in a state file restores to a consistent core with every durable record, the same
      outbox for every account, allocators above every stored identifier, and a listing that saves identically. */
  lemma RestartKeepsTheOutbox(c: Core, account: nat)
    requires Inv(c)
    ensures Keyed(c)
    ensures var s := Sanitize(Take(c));
            var d := Restore(s);
            && Inv(d) && Remembers(c, d)
            && Outbox(d, account) == Outbox(c, account)
            && (forall m :: m in c.messages ==> m < FreshId(d.nextMessage))
            && Normal(s) == s && Sanitize(s) == s
  {
    hide Inv, Restore, Sanitize, Take, Outbox, Normal, Sorted;
    RestoredCore(c);
    var s := Sanitize(Take(c));
    SavedIsSorted(c);
    NormalIffSorted(s);
    SanitizeIsIdempotent(Take(c));
    SameOutbox(c, Restore(s), account);
    RestoreIsBelowAllocators(s);
  }

  /** Through either kind of file, while the encrypted one leaves room for its layout. */
  lemma RestartThroughAFile(json: Json, aead: Aead, key: Key, nonce: Nonce, c: Core)
    requires Faithful(json) && Ideal(aead) && Inv(c) && Keyed(c)
    ensures PlainFile(json, Take(c)).Ok? ==>
              var load := PlainLoad(json, Some(PlainFile(json, Take(c)).value));
              load.Ok? && load.value.Some? && load.value.value.0 == Sanitize(Take(c))
    ensures |Plaintext(json, Take(c))| <= MAX_STATE_FILE_BYTES - MIN_ENCRYPTED_LEN ==>
              && EncryptedFile(json, aead, key, nonce, Take(c)).Ok?
              && var load := EncryptedLoad(json, aead, key, Some(EncryptedFile(json, aead, key, nonce, Take(c)).value));
                 load.Ok? && load.value.Encrypted? && load.value.snapshot == Sanitize(Take(c))
  {
    hide Inv, Take, Sanitize, PlainLoad, EncryptedLoad;
    if PlainFile(json, Take(c)).Ok? {
      PlainRoundTrip(json, aead, key, Take(c));
    }
    if |Plaintext(json, Take(c))| <= MAX_STATE_FILE_BYTES - MIN_ENCRYPTED_LEN {
      EncryptedRoundTrip(json, aead, key, nonce, Take(c));
    }
  }

  lemma SavedIsSorted(c: Core)
    requires Keyed(c)
    ensures Sorted(Sanitize(Take(c)))
  {
    hide Take;
    TakeIsSorted(c);
    var s, t := Take(c), Sanitize(Take(c));
    SameKeysAscend(s.accounts, t.accounts, AccountKey, NatLess);
    SameKeysAscend(s.contacts, t.contacts, ContactKey, ContactLess);
  }

  lemma SameKeysAscend<T, K>(xs: seq<T>, ys: seq<T>, key: T -> K, less: (K, K) -> bool)
    requires Ascending(xs, key, less) && |xs| == |ys|
    requires forall i :: 0 <= i < |xs| ==> key(ys[i]) == key(xs[i])
    ensures Ascending(ys, key, less)
  {
  }

  // ----- the loops ------------------------------------------------------------------------------------

  /** Clears session state record by record. */
  method SanitizeSnapshot(snapshot: Snapshot) returns (s: Snapshot)
    ensures s == Sanitize(snapshot)
  {
    s := snapshot;
    for i := 0 to |snapshot.accounts|
      invariant |s.accounts| == |snapshot.accounts| && s == snapshot.(accounts := s.accounts)
      invariant s.accounts[i..] == snapshot.accounts[i..]
      invariant forall k :: 0 <= k < i ==> s.accounts[k] == CleanAccount(snapshot.accounts[k])
    {
      var account := s.accounts[i];
      assert account == s.accounts[i..][0] == snapshot.accounts[i];
      account := account.(state := Offline);
      account := account.(error := None);
      account := account.(disconnectKind := None);
      account := account.(capabilities := {});
      s := s.(accounts := s.accounts[i := account]);
    }
    ghost var cleaned := s.accounts;
    for i := 0 to |snapshot.contacts|
      invariant |s.contacts| == |snapshot.contacts| && s == snapshot.(accounts := cleaned, contacts := s.contacts)
      invariant s.contacts[i..] == snapshot.contacts[i..]
      invariant forall k :: 0 <= k < i ==> s.contacts[k] == CleanContact(snapshot.contacts[k])
    {
      var contact := s.contacts[i];
      assert contact == s.contacts[i..][0] == snapshot.contacts[i];
      contact := contact.(presence := PresenceOffline);
      contact := contact.(status := None);
      s := s.(contacts := s.contacts[i := contact]);
    }
    assert s.accounts == Sanitize(snapshot).accounts;
    assert s.contacts == Sanitize(snapshot).contacts;
  }

  /** Seals a copy of the plaintext and assembles the file piece by piece. */
  method EncryptState(aead: Aead, key: Key, nonce: Nonce, plaintext: seq<Byte>, crypto: Crypto)
    returns (r: Result<seq<Byte>, PersistenceError>)
    requires Ideal(aead)
    ensures match crypto
            case NoRandom => r == Err(Encryption("secure RNG unavailable"))
            case NoKey => r == Err(Encryption("AES-256-GCM key setup failed"))
            case NoSeal => r == Err(Encryption("AES-GCM seal failed"))
            case Works =>
              r == Ok(Blob(aead, key, nonce, plaintext)) && |r.value| == |plaintext| + MIN_ENCRYPTED_LEN
              && DecryptState(aead, key, r.value) == Ok(plaintext)
  {
    if crypto.NoRandom? { return Err(Encryption("secure RNG unavailable")); }
    if crypto.NoKey? { return Err(Encryption("AES-256-GCM key setup failed")); }
    if crypto.NoSeal? { return Err(Encryption("AES-GCM seal failed")); }
    var sealed := aead.seal(key, nonce, plaintext);
    var ciphertext, tag := sealed[..|plaintext|], sealed[|plaintext|..];
    var blob := MAGIC;
    blob := blob + nonce;
    blob := blob + ciphertext;
    blob := blob + tag;
    assert ciphertext + tag == sealed;
    assert blob == Blob(aead, key, nonce, plaintext);
    BlobLayout(aead, key, nonce, plaintext);
    r := Ok(blob);
  }

  /** Whether the file system lets a load see the file's size, and then its bytes. */
  datatype Access = Readable | NoMetadata | NoRead

  /** The file a handle saves to. A write installs all its bytes or, failing, leaves the file alone; whether it
      `works` is up to the file system. */
  class StateFile {
    var contents: Option<seq<Byte>>

    method WriteAtomic(bytes: seq<Byte>, works: bool) returns (ok: bool)
      modifies this
      ensures ok == works
      ensures contents == if works then Some(bytes) else old(contents)
    {
      if works { contents := Some(bytes); }
      ok := works;
    }

    method SaveState(json: Json, snapshot: Snapshot, works: bool) returns (r: Result<(), PersistenceError>)
      modifies this
      ensures r == match PlainFile(json, snapshot)
                   case Err(e) => Err(e)
                   case Ok(_) => if works then Ok(()) else Err(Io)
      ensures contents == if r.Ok? then Some(PlainFile(json, snapshot).value) else old(contents)
    {
      var bytes := json.encode(PersistedState(CURRENT_SCHEMA_VERSION, snapshot));
      if |bytes| > MAX_STATE_FILE_BYTES { return Err(TooLarge(|bytes|)); }
      var ok := WriteAtomic(bytes, works);
      r := if ok then Ok(()) else Err(Io);
    }

    method SaveStateEncrypted(json: Json, aead: Aead, key: Key, nonce: Nonce, snapshot: Snapshot, crypto: Crypto,
                              works: bool)
      returns (r: Result<Metadata, PersistenceError>)
      requires Ideal(aead)
      modifies this
      ensures r == match EncryptedFile(json, aead, key, nonce, snapshot)
                   case Err(e) => Err(e)
                   case Ok(file) =>
                     if CryptoError(crypto).Some? then Err(CryptoError(crypto).value)
                     else if works then Ok(Metadata(|file|, CURRENT_SCHEMA_VERSION)) else Err(Io)
      ensures contents == if r.Ok? then Some(EncryptedFile(json, aead, key, nonce, snapshot).value) else old(contents)
    {
      var bytes := json.encode(PersistedState(CURRENT_SCHEMA_VERSION, snapshot));
      if |bytes| > MAX_STATE_FILE_BYTES { return Err(TooLarge(|bytes|)); }
      var encrypted := EncryptState(aead, key, nonce, bytes, crypto);
      if encrypted.Err? { return Err(encrypted.error); }
      var blob := encrypted.value;
      var ok := WriteAtomic(blob, works);
      r := if ok then Ok(Metadata(|blob|, CURRENT_SCHEMA_VERSION)) else Err(Io);
    }

    /** The size of a file is looked at first; only a file of acceptable size is read. */
    method LoadStateWithMetadata(json: Json, access: Access)
      returns (r: Result<Option<(Snapshot, Metadata)>, PersistenceError>)
      ensures access.NoMetadata? ==> r == Err(Io)
      ensures access.NoRead? && contents.Some? && |contents.value| <= 16777216 ==> r == Err(Io)
      ensures access.Readable? || (access.NoRead? && (contents.None? || |contents.value| > 16777216)) ==>
                r == PlainLoad(json, contents)
    {
      if access.NoMetadata? { return Err(Io); }
      if contents.None? { return Ok(None); }
      if |contents.value| > MAX_STATE_FILE_BYTES { return Err(TooLarge(|contents.value|)); }
      if access.NoRead? { return Err(Io); }
      var bytes := contents.value;
      var persisted := json.decode(bytes);
      if persisted.None? { return Err(Corrupt); }
      if persisted.value.schemaVersion != CURRENT_SCHEMA_VERSION {
        return Err(UnsupportedVersion(persisted.value.schemaVersion));
      }
      var snapshot := SanitizeSnapshot(persisted.value.snapshot);
      r := Ok(Some((snapshot, Metadata(|bytes|, persisted.value.schemaVersion))));
    }

    /** Accepts encrypted files and, by the absence of the header, legacy plaintext ones. */
    method LoadStateEncrypted(json: Json, aead: Aead, key: Key, access: Access)
      returns (r: Result<LoadOutcome, PersistenceError>)
      ensures access.NoMetadata? ==> r == Err(Io)
      ensures access.NoRead? && contents.Some? && |contents.value| <= 16777216 ==> r == Err(Io)
      ensures access.Readable? || (access.NoRead? && (contents.None? || |contents.value| > 16777216)) ==>
                r == EncryptedLoad(json, aead, key, contents)
    {
      if access.NoMetadata? { return Err(Io); }
      if contents.None? { return Ok(Missing); }
      if |contents.value| > MAX_STATE_FILE_BYTES { return Err(TooLarge(|contents.value|)); }
      if access.NoRead? { return Err(Io); }
      var bytes := contents.value;
      var encrypted := IsEncryptedBlob(bytes);
      var plain := if encrypted then DecryptState(aead, key, bytes) else Ok(bytes);
      if plain.Err? { return Err(plain.error); }
      var persisted := json.decode(plain.value);
      if persisted.None? { return Err(Corrupt); }
      if persisted.value.schemaVersion != CURRENT_SCHEMA_VERSION {
        return Err(UnsupportedVersion(persisted.value.schemaVersion));
      }
      var snapshot := SanitizeSnapshot(persisted.value.snapshot);
      var metadata := Metadata(|bytes|, persisted.value.schemaVersion);
      r := Ok(if encrypted then Encrypted(snapshot, metadata) else PlaintextLegacy(snapshot, metadata));
    }
  }
}
