/** The gateway's proxy operations: the library, the per-account assignments, the stored credentials, and what is
    written back to the preferences. */
module ProxyLibrary {
  import opened Wrappers
  import opened Text
  import opened Domain
  import opened ProxyCodec
  import opened ProxyRefusal

  // ----- input validation --------------------------------------------------------------------------

  /** `Char.isWhitespace` of the JVM: it includes the ASCII separators. */
  predicate IsJvmWhitespace(c: char) {
    var u := c as int;
    0x09 <= u <= 0x0D || 0x1C <= u <= 0x20 || u == 0xA0 || u == 0x1680 || 0x2000 <= u <= 0x200A
    || u == 0x2028 || u == 0x2029 || u == 0x202F || u == 0x205F || u == 0x3000
  }

  predicate ValidProxyConfig(host: string, port: int) {
    && (exists i :: 0 <= i < |host| && !IsJvmWhitespace(host[i]))
    && (forall i :: 0 <= i < |host| ==> !IsJvmWhitespace(host[i]))
    && 1 <= port <= 65535
  }

  lemma ConfigsAreValidated(host: string, port: int)
    ensures ValidProxyConfig(host, port) <==>
            host != "" && (forall c :: c in host ==> !IsJvmWhitespace(c)) && 1 <= port <= 65535
  {
    if host != "" { assert host[0] in host; }
  }

  lemma JvmWhitespaceByCodePoint(c: char)
    ensures IsJvmWhitespace(c) <==>
            c as int in {9, 10, 11, 12, 13, 28, 29, 30, 31, 32, 160, 5760, 8192, 8193, 8194, 8195, 8196, 8197, 8198,
                         8199, 8200, 8201, 8202, 8232, 8233, 8239, 8287, 12288}
  {
  }

  /** A validated host can be stored: it holds no separator. */
  lemma ValidHostsAreFree(host: string, port: int)
    requires ValidProxyConfig(host, port)
    ensures Free(host) && host != ""
  {
  }

  datatype ProbeResult = ProbeResult(ok: bool, latencyMs: Option<Long>, error: Option<string>)

  /** The status a probe leaves: a latency only if it succeeded, and its error as it came. */
  function Outcome(probe: ProbeResult): ProxyStatus {
    ProxyStatus(if probe.ok && probe.latencyMs.Some? then Some(probe.latencyMs.value) else None, probe.error)
  }

  predicate Storeworthy(error: Option<string>) {
    error.Some? ==> error.value != "" && Free(error.value)
  }

  /** What is left of probing a proxy: a latency, or the text of the error. */
  function ProbeOf(result: Result<(), ProxyError>, latencyMs: Long): ProbeResult {
    match result
    case Ok(_) => ProbeResult(true, Some(latencyMs), None)
    case Err(e) => ProbeResult(false, None, Some(Rendered(e)))
  }

  function With(credentials: map<string, string>, id: string, password: Option<string>): map<string, string> {
    if password.Some? then credentials[id := password.value] else credentials
  }

  lemma OnlyThePasswordIsStored(credentials: map<string, string>, id: string, password: Option<string>)
    ensures var stored := With(credentials, id, password);
            && (password == None ==> stored == credentials)
            && (password != None ==> id in stored && stored[id] == password.value)
            && forall other :: other != id ==>
                 (other in stored <==> other in credentials)
                 && (other in stored ==> stored[other] == credentials[other])
  {
  }

  /** A probe through the core: its latency if it succeeded, the text of its error if it did not. */
  lemma WhatProbesSay(result: Result<(), ProxyError>, latencyMs: Long)
    ensures var probe := ProbeOf(result, latencyMs);
            && (probe.ok <==> result.Ok?)
            && (result.Ok? ==> probe.latencyMs == Some(latencyMs) && probe.error == None)
            && (result.Err? ==> probe.latencyMs == None && probe.error == Some(Rendered(result.error)))
  {
  }

  function WithStatus(e: ProxyLibraryEntry, id: string, status: ProxyStatus): ProxyLibraryEntry {
    if e.id == id then e.(status := status) else e
  }

  function WithConfig(e: ProxyLibraryEntry, id: string, host: string, port: int, kind: ProxyKind): ProxyLibraryEntry {
    if e.id == id then ProxyLibraryEntry(id, host, port, kind, Untested) else e
  }

  function WithoutId(library: seq<ProxyLibraryEntry>, id: string): seq<ProxyLibraryEntry> {
    if library == [] then []
    else (if library[0].id == id then [] else [library[0]]) + WithoutId(library[1..], id)
  }

  lemma {:induction false} WithoutIdKeepsTheRest(library: seq<ProxyLibraryEntry>, id: string)
    ensures forall e :: e in WithoutId(library, id) <==> e in library && e.id != id
    ensures forall other :: HasId(WithoutId(library, id), other) <==> HasId(library, other) && other != id
  {
    if library != [] {
      WithoutIdKeepsTheRest(library[1..], id);
      assert library == [library[0]] + library[1..];
    }
    var rest := WithoutId(library, id);
    forall other ensures HasId(rest, other) <==> HasId(library, other) && other != id {
      if HasId(rest, other) {
        var i :| 0 <= i < |rest| && rest[i].id == other;
        assert rest[i] in rest;
      }
      if HasId(library, other) && other != id {
        var i :| 0 <= i < |library| && library[i].id == other;
        assert library[i] in rest;
      }
    }
  }

  function FindByConfig(library: seq<ProxyLibraryEntry>, host: string, port: int,
                        kind: ProxyKind): Option<ProxyLibraryEntry> {
    if library == [] then None
    else if library[0].host == host && library[0].port == port && library[0].kind == kind then Some(library[0])
    else FindByConfig(library[1..], host, port, kind)
  }

  lemma {:induction false} FoundIsInLibrary(library: seq<ProxyLibraryEntry>, host: string, port: int, kind: ProxyKind)
    ensures FindByConfig(library, host, port, kind).Some? ==>
              var e := FindByConfig(library, host, port, kind).value;
              e in library && HasId(library, e.id) && (e.host, e.port, e.kind) == (host, port, kind)
  {
    if library != [] {
      FoundIsInLibrary(library[1..], host, port, kind);
      assert library == [library[0]] + library[1..];
      var found := FindByConfig(library, host, port, kind);
      if found.Some? {
        var i :| 0 <= i < |library| && library[i] == found.value;
        assert library[i].id == found.value.id;
      }
    }
  }

  /** The search finds the first entry with that address and kind, and finds one whenever there is one. */
  lemma {:induction false} FindsTheFirst(library: seq<ProxyLibraryEntry>, host: string, port: int, kind: ProxyKind)
    ensures var found := FindByConfig(library, host, port, kind);
            && (found.None? <==> forall e :: e in library ==> (e.host, e.port, e.kind) != (host, port, kind))
            && (found.Some? ==>
                  exists i :: 0 <= i < |library| && library[i] == found.value
                              && (library[i].host, library[i].port, library[i].kind) == (host, port, kind)
                              && forall j :: 0 <= j < i ==>
                                   (library[j].host, library[j].port, library[j].kind) != (host, port, kind))
  {
    if library != [] {
      FindsTheFirst(library[1..], host, port, kind);
      assert library == [library[0]] + library[1..];
      var found := FindByConfig(library[1..], host, port, kind);
      if (library[0].host, library[0].port, library[0].kind) != (host, port, kind) && found.Some? {
        var i :| 0 <= i < |library[1..]| && library[1..][i] == found.value
                 && forall j :: 0 <= j < i ==>
                      (library[1..][j].host, library[1..][j].port, library[1..][j].kind) != (host, port, kind);
        forall j | 0 <= j < i + 1 ensures (library[j].host, library[j].port, library[j].kind) != (host, port, kind) {
          if j > 0 { assert library[j] == library[1..][j - 1]; }
        }
        assert library[i + 1] == found.value;
      }
    }
  }

  /** Every assignment and every stored credential names an entry of the library. */
  ghost predicate Anchored(library: seq<ProxyLibraryEntry>, assignments: map<int, string>, credentials: map<string,
                           string>) {
    && (forall a :: a in assignments ==> HasId(library, assignments[a]))
    && (forall id :: id in credentials ==> HasId(library, id))
  }

  /** The 64-bit counter has passed its largest value and come round to a number already taken. */
  predicate Wrapped(library: seq<ProxyLibraryEntry>) {
    MaxNumber(library) == Some(MAX_LONG) && HasId(library, "p" + Numeral(MIN_LONG))
  }

  /** In an anchored state an identifier that is not in the library carries nothing over: whoever gets it next starts
      with no account assigned and no credential. */
  lemma FreshIdInheritsNothing(library: seq<ProxyLibraryEntry>, assignments: map<int, string>,
                               credentials: map<string, string>)
    requires Anchored(library, assignments, credentials)
    requires !Wrapped(library)
    ensures !HasId(library, NextProxyId(library))
    ensures NextProxyId(library) !in credentials && forall a :: a in assignments ==>
              assignments[a] != NextProxyId(library)
  {
    hide NextProxyId, HasId;
    NextIdIsTakenIffWrapped(library);
  }

  lemma AppendKeepsIds(library: seq<ProxyLibraryEntry>, e: ProxyLibraryEntry)
    ensures HasId(library + [e], e.id) && forall id :: HasId(library, id) ==> HasId(library + [e], id)
  {
    assert (library + [e])[|library|].id == e.id;
    forall id | HasId(library, id) ensures HasId(library + [e], id) {
      var i :| 0 <= i < |library| && library[i].id == id;
      assert (library + [e])[i].id == id;
    }
  }

  lemma SameIds(library: seq<ProxyLibraryEntry>, changed: seq<ProxyLibraryEntry>)
    requires |changed| == |library| && forall i :: 0 <= i < |library| ==> changed[i].id == library[i].id
    ensures forall id :: HasId(changed, id) <==> HasId(library, id)
  {
    forall id ensures HasId(changed, id) <==> HasId(library, id) {
      if HasId(library, id) {
        var i :| 0 <= i < |library| && library[i].id == id;
        assert changed[i].id == id;
      }
    }
  }

  /** Recording a probe keeps a clean library clean exactly when the error is absent or fit to store. */
  lemma PingedIsClean(library: seq<ProxyLibraryEntry>, changed: seq<ProxyLibraryEntry>, id: string, probe: ProbeResult)
    requires |changed| == |library| && HasId(library, id)
    requires forall i :: 0 <= i < |library| ==> changed[i] == WithStatus(library[i], id, Outcome(probe))
    ensures CleanLibrary(library) ==> (CleanLibrary(changed) <==> Storeworthy(probe.error))
  {
    hide Free;
    var k :| 0 <= k < |library| && library[k].id == id;
    if CleanLibrary(library) {
      assert Clean(library[k]) && changed[k] == library[k].(status := Outcome(probe));
      assert Clean(changed[k]) <==> Storeworthy(probe.error);
      if Storeworthy(probe.error) {
        forall i | 0 <= i < |changed| ensures Clean(changed[i]) {
          assert Clean(library[i]);
        }
      }
    }
  }

  lemma ProbesAreStoreworthy(result: Result<(), ProxyError>, latencyMs: Long)
    ensures Storeworthy(ProbeOf(result, latencyMs).error) <==> (result.Err? ==> Free(Rendered(result.error)))
    ensures result.Ok? ==> Free(ReasonOf(result))
  {
    hide Free, Rendered;
    PunctuationIsFree();
    if result.Err? { RenderedIsFree(result.error); }
  }

  lemma NextIdIsFree(library: seq<ProxyLibraryEntry>)
    ensures Free(NextProxyId(library))
  {
    hide Numeral;
    NumeralIsFree(Increment(if MaxNumber(library).Some? then MaxNumber(library).value else 0));
  }

  lemma AppendIsClean(library: seq<ProxyLibraryEntry>, e: ProxyLibraryEntry)
    requires Clean(e)
    ensures CleanLibrary(library) <==> CleanLibrary(library + [e])
  {
    assert forall i :: 0 <= i < |library| ==> (library + [e])[i] == library[i];
  }

  lemma {:induction false} WithoutIdIsStorable(library: seq<ProxyLibraryEntry>, id: string)
    ensures CleanLibrary(library) ==> CleanLibrary(WithoutId(library, id))
    ensures Storable(library) ==> Storable(WithoutId(library, id))
  {
    hide Clean, StorableEntry;
    if library != [] {
      WithoutIdIsStorable(library[1..], id);
    }
  }

  lemma ListedIdsAreFree(library: seq<ProxyLibraryEntry>, id: string)
    requires Storable(library) && HasId(library, id)
    ensures Free(id)
  {
    var i :| 0 <= i < |library| && library[i].id == id;
    assert StorableEntry(library[i]);
  }

  lemma AnchoredAssignmentsAreRecords(library: seq<ProxyLibraryEntry>, assignments: map<int, string>,
                                      credentials: map<string, string>)
    requires Anchored(library, assignments, credentials) && Storable(library)
    ensures forall a :: a in assignments ==> RECORD_SEP !in assignments[a]
  {
    forall a | a in assignments ensures RECORD_SEP !in assignments[a] {
      assert HasId(library, assignments[a]);
      var i :| 0 <= i < |library| && library[i].id == assignments[a];
      assert StorableEntry(library[i]);
    }
  }

  predicate Keyed64(assignments: map<int, string>) {
    forall a :: a in assignments ==> MIN_LONG <= a <= MAX_LONG
  }

  /** What the stores hold at a start: entries and credentials that every surviving assignment can name. */
  ghost predicate SoundStores(entries: Option<string>, stored: Option<string>, credentials: map<string, string>) {
    Anchored(DecodeLibrary(entries), DecodeAssignments(stored), credentials) && Keyed64(DecodeAssignments(stored))
  }

  lemma SurvivorsAreAnchored(library: seq<ProxyLibraryEntry>, restored: seq<ProxyLibraryEntry>,
                             assignments: map<int, string>, credentials: map<string, string>)
    requires Anchored(library, assignments, credentials)
    requires forall id :: HasId(library, id) ==> HasId(restored, id)
    ensures Anchored(restored, Durable(assignments), credentials)
  {
    hide HasId;
  }

  lemma DurableIsIdempotent(m: map<int, string>)
    ensures Durable(Durable(m)) == Durable(m)
  {
    SameMap(Durable(Durable(m)), Durable(m));
  }

  method Pick<T(==)>(s: set<T>) returns (x: T)
    requires s != {}
    ensures x in s
  {
    x :| x in s;
  }

  class ProxyGateway {
    var library: seq<ProxyLibraryEntry>
    var assignments: map<int, string>
    var credentials: map<string, string>
    var storedEntries: Option<string>
    var storedAssignments: Option<string>

    /** Nothing dangles, everything can be stored, and the preferences hold what was last changed: the library as
        written, or as read from them at the start, and the assignments that survive being written. */
    ghost predicate Valid()
      reads this
    {
      && Anchored(library, assignments, credentials)
      && Storable(library) && Keyed64(assignments)
      && (storedEntries == Some(EncodeLibrary(library)) || library == DecodeLibrary(storedEntries))
      && DecodeAssignments(storedAssignments) == Durable(assignments)
    }

    /** A start of the app: the caches are read from the preferences, whatever they hold. */
    constructor (entries: Option<string>, stored: Option<string>, credentials: map<string, string>)
      ensures library == DecodeLibrary(entries) && assignments == DecodeAssignments(stored)
      ensures this.credentials == credentials && storedEntries == entries && storedAssignments == stored
      ensures CleanLibrary(library)
      ensures SoundStores(entries, stored, credentials) && Durable(assignments) == assignments ==> Valid()
    {
      library, assignments := DecodeLibrary(entries), DecodeAssignments(stored);
      this.credentials, storedEntries, storedAssignments := credentials, entries, stored;
      new;
      DecodedLibraryIsClean(entries);
    }

    /** A restart at any point: every identifier of the library is still one, so every surviving assignment and every
        credential still names an entry, whatever probe errors were stored; the library itself comes back exactly
        when it is clean, and otherwise as `RestoredAll` says. */
    lemma RestartIsSound()
      requires Valid()
      ensures SoundStores(storedEntries, storedAssignments, credentials)
      ensures DecodeAssignments(storedAssignments) == Durable(assignments)
      ensures Durable(DecodeAssignments(storedAssignments)) == DecodeAssignments(storedAssignments)
      ensures forall id :: HasId(library, id) ==> HasId(DecodeLibrary(storedEntries), id)
      ensures DecodeLibrary(storedEntries) == library || DecodeLibrary(storedEntries) == RestoredAll(library)
      ensures DecodeLibrary(storedEntries) == library <==> CleanLibrary(library)
    {
      hide HasId, EncodeLibrary, DecodeLibrary, Anchored, DecodeAssignments, CleanLibrary, RestoredAll;
      DecodedLibraryIsClean(storedEntries);
      LibraryRoundTrip(library);
      LibraryRestores(library);
      forall id | HasId(library, id) ensures HasId(DecodeLibrary(storedEntries), id) {
        RestartKeepsIds(library, id);
      }
      SurvivorsAreAnchored(library, DecodeLibrary(storedEntries), assignments, credentials);
      DurableIsIdempotent(assignments);
    }

    /** Ends the process and starts the next one on what it left behind. */
    method Restart() returns (next: ProxyGateway)
      requires Valid()
      ensures fresh(next) && next.Valid()
      ensures next.library == DecodeLibrary(storedEntries)
      ensures next.assignments == Durable(assignments) && next.credentials == credentials
      ensures forall id :: HasId(library, id) ==> HasId(next.library, id)
      ensures next.library == library <==> CleanLibrary(library)
      ensures CleanLibrary(next.library)
    {
      RestartIsSound();
      next := new ProxyGateway(storedEntries, storedAssignments, credentials);
    }

    method WriteEntries()
      modifies this`storedEntries
      ensures storedEntries == Some(EncodeLibrary(library))
    {
      storedEntries := Some(EncodeLibrary(library));
    }

    /** Lists the assignments in whatever order the map is visited. */
    method WriteAssignments()
      requires Keyed64(assignments) && forall a :: a in assignments ==> RECORD_SEP !in assignments[a]
      modifies this`storedAssignments
      ensures DecodeAssignments(storedAssignments) == Durable(assignments)
    {
      var listing: seq<Assignment> := [];
      var todo := assignments.Keys;
      while todo != {}
        invariant todo <= assignments.Keys
        invariant forall i :: 0 <= i < |listing| ==>
                                listing[i].account in assignments && assignments[listing[i].account] == listing[i].proxy
        invariant forall a :: a in assignments && a !in todo ==> Assignment(a, assignments[a]) in listing
        decreases todo
      {
        var a := Pick(todo);
        listing := listing + [Assignment(a, assignments[a])];
        todo := todo - {a};
      }
      storedAssignments := Some(EncodeAssignments(listing));
      AssignmentsRoundTrip(assignments, listing);
    }

    method AddProxy(host: string, port: int, kind: ProxyKind, password: Option<string>) returns (ok: bool)
      requires Valid()
      modifies this
      ensures Valid()
      ensures ok <==> ValidProxyConfig(host, port)
      ensures !ok ==> unchanged(this)
      ensures ok ==> var id := NextProxyId(old(library));
                     && library == old(library) + [ProxyLibraryEntry(id, host, port, kind, ProxyStatus(None, None))]
                     && assignments == old(assignments)
                     && credentials == With(old(credentials), id, password)
                     && (!Wrapped(old(library)) ==>
                           !HasId(old(library), id) && id !in old(credentials)
                           && forall a :: a in assignments ==> assignments[a] != id)
      ensures CleanLibrary(library) <==> old(CleanLibrary(library))
    {
      hide Wrapped, NextProxyId, HasId, EncodeLibrary, DecodeAssignments;
      if !ValidProxyConfig(host, port) { return false; }
      var id := NextProxyId(library);
      ValidHostsAreFree(host, port);
      NextIdIsFree(library);
      if !Wrapped(library) { FreshIdInheritsNothing(library, assignments, credentials); }
      if password.Some? { credentials := credentials[id := password.value]; }
      var entry := ProxyLibraryEntry(id, host, port, kind, Untested);
      AppendKeepsIds(library, entry);
      AppendIsClean(library, entry);
      library := library + [entry];
      WriteEntries();
      ok := true;
    }

    method UpdateProxy(id: string, host: string, port: int, kind: ProxyKind, password: Option<string>)
      returns (ok: bool)
      requires Valid()
      modifies this
      ensures Valid()
      ensures ok <==> ValidProxyConfig(host, port) && HasId(old(library), id)
      ensures !ok ==> unchanged(this)
      ensures ok ==>
                && |library| == |old(library)|
                && (forall i :: 0 <= i < |library| ==>
                                  library[i] ==
                                  if old(library)[i].id != id then old(library)[i]
                                  else ProxyLibraryEntry(id, host, port, kind, ProxyStatus(None, None)))
                && assignments == old(assignments)
                && credentials == With(old(credentials), id, password)
      ensures old(CleanLibrary(library)) ==> CleanLibrary(library)
    {
      hide HasId, EncodeLibrary, DecodeAssignments;
      if !ValidProxyConfig(host, port) { return false; }
      if !HasId(library, id) { return false; }
      ValidHostsAreFree(host, port);
      if password.Some? { credentials := credentials[id := password.value]; }
      var was := library;
      var changed := seq(|was|, i requires 0 <= i < |was| => WithConfig(was[i], id, host, port, kind));
      SameIds(was, changed);
      ListedIdsAreFree(was, id);
      library := changed;
      WriteEntries();
      ok := true;
    }

    /** Removes the entry, its credential, and every assignment to it. */
    method DeleteProxy(id: string)
      requires Valid()
      modifies this
      ensures Valid()
      ensures !HasId(old(library), id) ==> unchanged(this)
      ensures HasId(old(library), id) ==>
                && library == WithoutId(old(library), id)
                && credentials == old(credentials) - {id}
                && assignments == (map a | a in old(assignments) && old(assignments)[a] != id :: old(assignments)[a])
      ensures !HasId(library, id) && id !in credentials && forall a :: a in assignments ==> assignments[a] != id
      ensures old(CleanLibrary(library)) ==> CleanLibrary(library)
    {
      hide HasId, EncodeLibrary, Clean, StorableEntry, DecodeAssignments;
      if !HasId(library, id) { return; }
      WithoutIdKeepsTheRest(library, id);
      WithoutIdIsStorable(library, id);
      library := WithoutId(library, id);
      WriteEntries();
      credentials := credentials - {id};
      assignments := map a | a in assignments && assignments[a] != id :: assignments[a];
      AnchoredAssignmentsAreRecords(library, assignments, credentials);
      WriteAssignments();
    }

    /** Records a probe of one entry. A clean library stays clean exactly when the error recorded is absent, or says
        something without separators. */
    method PingProxy(id: string, password: Option<string>, probe: ProbeResult) returns (known: bool)
      requires Valid()
      modifies this
      ensures Valid()
      ensures known <==> HasId(old(library), id)
      ensures !known ==> unchanged(this)
      ensures known ==>
                && |library| == |old(library)|
                && (forall i :: 0 <= i < |library| ==>
                                  library[i] ==
                                  if old(library)[i].id != id then old(library)[i]
                                  else
                                    var latency := if probe.ok then probe.latencyMs else None;
                                    old(library)[i].(status := ProxyStatus(latency, probe.error)))
                && assignments == old(assignments)
                && credentials == With(old(credentials), id, password)
      ensures known && old(CleanLibrary(library)) ==> (CleanLibrary(library) <==> Storeworthy(probe.error))
    {
      hide EncodeLibrary, DecodeAssignments, CleanLibrary, Storeworthy;
      if !HasId(library, id) { return false; }
      if password.Some? { credentials := credentials[id := password.value]; }
      var was := library;
      var changed := seq(|was|, i requires 0 <= i < |was| => WithStatus(was[i], id, Outcome(probe)));
      SameIds(was, changed);
      PingedIsClean(was, changed, id, probe);
      library := changed;
      WriteEntries();
      known := true;
    }

    /** Probes an HTTP proxy that answers with the header block `answer`: the stored library stays readable exactly if
        the reason it gives, if it refuses, holds no separator. */
    method PingHttpProxy(id: string, password: Option<string>, answer: Option<string>, latencyMs: Long,
                         quoted: string -> string)
      returns (known: bool)
      requires Valid() && forall line :: Free(quoted(line))
      modifies this
      ensures Valid()
      ensures known <==> HasId(old(library), id)
      ensures !known ==> unchanged(this)
      ensures var probe := ProbeOf(ParseHttpConnectResponse(answer, quoted), latencyMs);
              known ==>
                && |library| == |old(library)|
                && (forall i :: 0 <= i < |library| ==>
                                  library[i] ==
                                  if old(library)[i].id != id then old(library)[i]
                                  else
                                    var latency := if probe.ok then probe.latencyMs else None;
                                    old(library)[i].(status := ProxyStatus(latency, probe.error)))
                && assignments == old(assignments)
                && credentials == With(old(credentials), id, password)
      ensures known && old(CleanLibrary(library)) ==>
                (CleanLibrary(library) <==> Free(ReasonOf(ParseHttpConnectResponse(answer, quoted))))
    {
      hide Valid, CleanLibrary, HasId, WithStatus, Outcome, Free, ParseHttpConnectResponse;
      var result := ParseHttpConnectResponse(answer, quoted);
      OnlyReasonsCarrySeparators(answer, quoted);
      ProbesAreStoreworthy(result, latencyMs);
      known := PingProxy(id, password, ProbeOf(result, latencyMs));
    }

    method ClearAccountProxy(account: Long)
      requires Valid()
      modifies this`assignments, this`storedAssignments
      ensures Valid()
      ensures assignments == old(assignments) - {account}
    {
      hide HasId, EncodeLibrary, DecodeLibrary;
      AnchoredAssignmentsAreRecords(library, assignments, credentials);
      assignments := assignments - {account};
      WriteAssignments();
    }

    /** Assigns a library entry to an account; if the core refuses the account, the assignment is rolled back, in the
        preferences too. */
    method SetAccountProxy(account: Long, host: string, port: int, kind: ProxyKind, password: Option<string>,
                           coreAccepts: bool) returns (ok: bool)
      requires Valid()
      modifies this`assignments, this`credentials, this`storedAssignments
      ensures Valid()
      ensures ok <==> ValidProxyConfig(host, port) && FindByConfig(library, host, port, kind).Some? && coreAccepts
      ensures assignments == if ok then old(assignments)[account := FindByConfig(library, host, port, kind).value.id]
                             else old(assignments)
      ensures credentials ==
              if ValidProxyConfig(host, port) && FindByConfig(library, host, port, kind).Some?
              then With(old(credentials), FindByConfig(library, host, port, kind).value.id, password)
              else old(credentials)
    {
      hide HasId, EncodeLibrary, DecodeLibrary, FindByConfig;
      if !ValidProxyConfig(host, port) { return false; }
      var entry := FindByConfig(library, host, port, kind);
      if entry.None? { return false; }
      FoundIsInLibrary(library, host, port, kind);
      if password.Some? { credentials := credentials[entry.value.id := password.value]; }
      var previous := assignments;
      AnchoredAssignmentsAreRecords(library, previous, credentials);
      assignments := assignments[account := entry.value.id];
      AnchoredAssignmentsAreRecords(library, assignments, credentials);
      WriteAssignments();
      if !coreAccepts {
        assignments := previous;
        WriteAssignments();
        return false;
      }
      ok := true;
    }

    /** What an account connects through: a dangling assignment would mean a direct connection. */
    method AssignedProxyEntry(account: int) returns (entry: Option<ProxyLibraryEntry>)
      requires Valid()
      ensures entry.Some? <==> account in assignments
      ensures entry.Some? ==> entry.value in library && entry.value.id == assignments[account]
    {
      hide EncodeLibrary, DecodeLibrary, DecodeAssignments;
      if account !in assignments { return None; }
      var id := assignments[account];
      assert HasId(library, id);
      var i := 0;
      while library[i].id != id
        invariant 0 <= i < |library|
        invariant exists k :: i <= k < |library| && library[k].id == id
        decreases |library| - i
      {
        i := i + 1;
      }
      entry := Some(library[i]);
    }

    /** What the next start of the app will read. */
    method ReadEntries() returns (entries: seq<ProxyLibraryEntry>)
      requires Valid()
      ensures entries == library || entries == RestoredAll(library)
      ensures entries == library <==> CleanLibrary(library)
    {
      RestartIsSound();
      entries := DecodeLibrary(storedEntries);
    }
  }

  /** A first start, one proxy added, and a probe that it refuses with a reason of its choice. */
  method Refused(reason: string, status: nat, quoted: string -> string) returns (gateway: ProxyGateway)
    requires IsPhrase(reason) && !Free(reason) && status <= 65535 && status != 200
    requires forall line :: Free(quoted(line))
    ensures fresh(gateway) && gateway.Valid() && !CleanLibrary(gateway.library)
    ensures |gateway.library| == 1 && gateway.library[0].id == "p1"
    ensures gateway.library[0].status.error == Some(RefusalText(status, reason))
  {
    hide EncodeLibrary, DecodeLibrary, DecodeAssignments, NextProxyId, RefusalText, IsPhrase, Free;
    hide ParseHttpConnectResponse, Answer, CleanLibrary, Anchored, Storable;
    gateway := Started();
    assert !IsJvmWhitespace("proxy"[0]);
    var added := gateway.AddProxy("proxy", 8080, HttpConnect, None);
    FirstId();
    assert gateway.library[0].id == "p1";
    AnswersAreRead(status, reason, quoted);
    var known := gateway.PingHttpProxy("p1", None, Some(Answer(status, reason)), 0, quoted);
  }

  /** A proxy chooses what the next start adds to the library: every entry one could configure is spelled by some
      reason, and a refusal for that reason restores with it. */
  method ARefusalCanAddAnEntry(e: ProxyLibraryEntry, status: nat, quoted: string -> string)
    returns (reason: string, before: seq<ProxyLibraryEntry>, after: seq<ProxyLibraryEntry>)
    requires StorableEntry(e) && !HasWhitespace(e.id) && !HasWhitespace(e.host)
    requires status <= 65535 && status != 200
    requires forall line :: Free(quoted(line))
    ensures IsPhrase(reason) && |before| == 1 && before[0].status.error == Some(RefusalText(status, reason))
    ensures |after| == 2 && after[0] == before[0].(status := after[0].status)
    ensures after[1] == ProxyLibraryEntry(e.id, e.host, e.port, e.kind, Untested)
  {
    hide EncodeLibrary, DecodeLibrary, DecodeAssignments, Restored, RefusalText, Spelling, IsPhrase, CleanLibrary;
    hide StorableEntry, Free, HasWhitespace, Anchored, Storable;
    reason := Spelling("x", e, true);
    LeadIsPlain();
    SpellingsArePhrases("x", e, true);
    SpellingsAreNotFree("x", e, true);
    var gateway := Refused(reason, status, quoted);
    before := gateway.library;
    ErrorTextCanAddAnEntry(before[0], status, "x", e, true);
    gateway.RestartIsSound();
    var next := gateway.Restart();
    after := next.library;
    assert before[1..] == [];
    assert RestoredAll(before) == Restored(before[0]) + [];
  }

  lemma LeadIsPlain()
    ensures Free("x") && !HasWhitespace("x")
  {
  }

  /** The first start: empty preferences and no credentials. */
  method Started() returns (gateway: ProxyGateway)
    ensures fresh(gateway) && gateway.Valid()
    ensures gateway.library == [] && gateway.assignments == map[] && gateway.credentials == map[]
    ensures CleanLibrary(gateway.library)
  {
    gateway := new ProxyGateway(None, None, map[]);
    SameMap(Durable(map[]), map[]);
  }

  lemma FirstId()
    ensures NextProxyId([]) == "p1"
  {
    assert Numeral(1) == "1";
  }
}
