/** The stored form of the proxy library: records of fields between ASCII separators. */
module ProxyCodec {
  import opened Wrappers
  import opened Text
  import opened Domain

  const MIN_INT: int := -0x8000_0000
  const MAX_INT: int := 0x7FFF_FFFF
  const MIN_LONG: int := -0x8000_0000_0000_0000
  const MAX_LONG: int := 0x7FFF_FFFF_FFFF_FFFF

  type Long = n: int | MIN_LONG <= n <= MAX_LONG witness 0

  const FIELD_SEP: char := 0x1F as char
  const RECORD_SEP: char := 0x1E as char

  datatype ProxyStatus = ProxyStatus(latencyMs: Option<int>, error: Option<string>)

  datatype ProxyLibraryEntry = ProxyLibraryEntry(
    id: string, host: string, port: int, kind: ProxyKind, status: ProxyStatus)

  const Untested := ProxyStatus(None, None)

  function KindName(kind: ProxyKind): string {
    match kind
    case Socks5 => "SOCKS5"
    case HttpConnect => "HTTP_CONNECT"
  }

  function KindNamed(name: string): Option<ProxyKind> {
    if name == "SOCKS5" then Some(Socks5) else if name == "HTTP_CONNECT" then Some(HttpConnect) else None
  }

  // ----- one entry ---------------------------------------------------------------------------------

  function Fields(e: ProxyLibraryEntry): seq<string> {
    [e.id, e.host, Numeral(e.port), KindName(e.kind),
     if e.status.latencyMs.Some? then Numeral(e.status.latencyMs.value) else "",
     if e.status.error.Some? then e.status.error.value else ""]
  }

  function EncodeProxyEntry(e: ProxyLibraryEntry): string {
    Join(Fields(e), FIELD_SEP)
  }

  function OptionalField(fields: seq<string>, i: nat): string {
    if i < |fields| then fields[i] else ""
  }

  function DecodeProxyEntry(raw: string): Option<ProxyLibraryEntry> {
    var fields := Split(raw, FIELD_SEP);
    if |fields| < 4 then None
    else
      var port := ParseNumeral(fields[2], MIN_INT, MAX_INT);
      var kind := KindNamed(fields[3]);
      if port.None? || kind.None? then None
      else
        var latency := OptionalField(fields, 4);
        var error := OptionalField(fields, 5);
        Some(ProxyLibraryEntry(fields[0], fields[1], port.value, kind.value,
                               ProxyStatus(if latency == "" then None else ParseNumeral(latency, MIN_LONG, MAX_LONG),
                                           if error == "" then None else Some(error))))
  }

  predicate Free(s: string) {
    FIELD_SEP !in s && RECORD_SEP !in s
  }

  /** An entry whose texts avoid the separators, whose numbers fit, and whose error, if any, says something. */
  predicate Clean(e: ProxyLibraryEntry) {
    && Free(e.id) && Free(e.host) && MIN_INT <= e.port <= MAX_INT
    && (e.status.latencyMs.Some? ==> MIN_LONG <= e.status.latencyMs.value <= MAX_LONG)
    && (e.status.error.Some? ==> e.status.error.value != "" && Free(e.status.error.value))
  }

  lemma NumeralIsFree(n: int)
    ensures Free(Numeral(n)) && Numeral(n) != ""
  {
    NumeralCharacters(n);
  }

  lemma FieldsAreFree(e: ProxyLibraryEntry)
    requires Clean(e)
    ensures forall f :: f in Fields(e) ==> Free(f)
  {
    NumeralIsFree(e.port);
    if e.status.latencyMs.Some? { NumeralIsFree(e.status.latencyMs.value); }
  }

  lemma EntryRoundTrip(e: ProxyLibraryEntry)
    requires Clean(e)
    ensures DecodeProxyEntry(EncodeProxyEntry(e)) == Some(e)
  {
    hide ParseNumeral, Numeral, Split, Join;
    FieldsAreFree(e);
    SplitOfJoin(Fields(e), FIELD_SEP);
    ParseOfNumeral(e.port, MIN_INT, MAX_INT);
    if e.status.latencyMs.Some? {
      NumeralIsFree(e.status.latencyMs.value);
      ParseOfNumeral(e.status.latencyMs.value, MIN_LONG, MAX_LONG);
    }
  }

  /** Whatever a record without record separators decodes to is clean. */
  lemma DecodedEntriesAreClean(raw: string)
    requires RECORD_SEP !in raw
    ensures DecodeProxyEntry(raw).Some? ==> Clean(DecodeProxyEntry(raw).value)
  {
    var fields := Split(raw, FIELD_SEP);
    SplitPiecesAreFree(raw, FIELD_SEP);
    SplitPiecesAreParts(raw, FIELD_SEP, RECORD_SEP);
    assert forall i :: 0 <= i < |fields| ==> fields[i] in fields;
  }

  /** The bytes of a record: six fields in this order, unit separators (31) between them. */
  lemma StoredForm(e: ProxyLibraryEntry)
    ensures EncodeProxyEntry(e) ==
            e.id + ['\U{1F}'] + (e.host + ['\U{1F}'] + (Numeral(e.port) + ['\U{1F}']
            + ((if e.kind == Socks5 then "SOCKS5" else "HTTP_CONNECT") + ['\U{1F}']
            + ((if e.status.latencyMs.Some? then Numeral(e.status.latencyMs.value) else "") + ['\U{1F}']
            + (if e.status.error.Some? then e.status.error.value else "")))))
  {
    hide Numeral, Join;
    var f := Fields(e);
    JoinOne(f[5..], FIELD_SEP);
    JoinOneMore(f[4..], FIELD_SEP);
    JoinOneMore(f[3..], FIELD_SEP);
    JoinOneMore(f[2..], FIELD_SEP);
    JoinOneMore(f[1..], FIELD_SEP);
    JoinOneMore(f, FIELD_SEP);
    assert f[1..][1..] == f[2..] && f[2..][1..] == f[3..] && f[3..][1..] == f[4..] && f[4..][1..] == f[5..];
  }

  lemma JoinOne(parts: seq<string>, sep: char)
    requires |parts| == 1
    ensures Join(parts, sep) == parts[0]
  {
  }

  lemma JoinOneMore(parts: seq<string>, sep: char)
    requires |parts| > 1
    ensures Join(parts, sep) == parts[0] + [sep] + Join(parts[1..], sep)
  {
  }

  /** What a record is read as: nothing unless it has four fields, the third a 32-bit port and the fourth a known kind;
      a missing or unreadable latency and a missing or empty error are none, and further fields are ignored. */
  lemma WhatRecordsMean(fields: seq<string>, e: ProxyLibraryEntry)
    requires fields != [] && forall f :: f in fields ==> '\U{1F}' !in f
    ensures DecodeProxyEntry(Join(fields, '\U{1F}')) == Some(e) <==>
            && |fields| >= 4 && e.id == fields[0] && e.host == fields[1]
            && ParseNumeral(fields[2], -2147483648, 2147483647) == Some(e.port)
            && fields[3] == (if e.kind == Socks5 then "SOCKS5" else "HTTP_CONNECT")
            && e.status.latencyMs == (if |fields| < 5 || fields[4] == "" then None
                                      else ParseNumeral(fields[4], -9223372036854775808, 9223372036854775807))
            && e.status.error == (if |fields| < 6 || fields[5] == "" then None else Some(fields[5]))
  {
    hide ParseNumeral, Join, Split;
    SplitOfJoin(fields, '\U{1F}');
  }

  // ----- the library -------------------------------------------------------------------------------

  function EncodeAll(entries: seq<ProxyLibraryEntry>): seq<string> {
    seq(|entries|, i requires 0 <= i < |entries| => EncodeProxyEntry(entries[i]))
  }

  function EncodeLibrary(entries: seq<ProxyLibraryEntry>): string {
    Join(EncodeAll(entries), RECORD_SEP)
  }

  /** Garbage records are dropped. */
  function DecodeAll(records: seq<string>): seq<ProxyLibraryEntry> {
    if records == [] then []
    else
      var rest := DecodeAll(records[1..]);
      match DecodeProxyEntry(records[0])
      case None => rest
      case Some(e) => [e] + rest
  }

  function DecodeLibrary(stored: Option<string>): seq<ProxyLibraryEntry> {
    match stored
    case None => []
    case Some(s) => DecodeAll(Split(s, RECORD_SEP))
  }

  predicate CleanLibrary(entries: seq<ProxyLibraryEntry>) {
    forall i :: 0 <= i < |entries| ==> Clean(entries[i])
  }

  lemma {:induction false} JoinIsFree(parts: seq<string>, sep: char, c: char)
    requires c != sep && forall i :: 0 <= i < |parts| ==> c !in parts[i]
    ensures c !in Join(parts, sep)
  {
    if |parts| > 1 {
      JoinIsFree(parts[1..], sep, c);
    }
  }

  lemma EncodedEntriesAreRecords(entries: seq<ProxyLibraryEntry>)
    requires CleanLibrary(entries)
    ensures forall r :: r in EncodeAll(entries) ==> RECORD_SEP !in r
  {
    forall i | 0 <= i < |entries| ensures RECORD_SEP !in EncodeAll(entries)[i] {
      FieldsAreFree(entries[i]);
      var fields := Fields(entries[i]);
      forall k | 0 <= k < |fields| ensures RECORD_SEP !in fields[k] {
        assert fields[k] in fields;
      }
      JoinIsFree(fields, FIELD_SEP, RECORD_SEP);
    }
  }

  lemma {:induction false} DecodeAllOfEncoded(entries: seq<ProxyLibraryEntry>)
    requires CleanLibrary(entries)
    ensures DecodeAll(EncodeAll(entries)) == entries
  {
    hide DecodeProxyEntry, EncodeProxyEntry;
    if entries != [] {
      EntryRoundTrip(entries[0]);
      assert EncodeAll(entries)[1..] == EncodeAll(entries[1..]);
      DecodeAllOfEncoded(entries[1..]);
    }
  }

  lemma {:induction false} DecodedRecordsAreClean(records: seq<string>)
    requires forall r :: r in records ==> RECORD_SEP !in r
    ensures CleanLibrary(DecodeAll(records))
  {
    hide DecodeProxyEntry, Clean;
    if records != [] {
      DecodedEntriesAreClean(records[0]);
      DecodedRecordsAreClean(records[1..]);
    }
  }

  /** A library, the empty one included, reads back as it was written exactly when every entry is clean. */
  lemma LibraryRoundTrip(entries: seq<ProxyLibraryEntry>)
    ensures DecodeLibrary(Some(EncodeLibrary(entries))) == entries <==> CleanLibrary(entries)
  {
    hide DecodeProxyEntry, EncodeProxyEntry, Clean, Join;
    var stored := EncodeLibrary(entries);
    if CleanLibrary(entries) {
      if entries == [] {
        EmptyLibrary();
      } else {
        EncodedEntriesAreRecords(entries);
        SplitOfJoin(EncodeAll(entries), RECORD_SEP);
        DecodeAllOfEncoded(entries);
      }
    }
    SplitPiecesAreFree(stored, RECORD_SEP);
    DecodedRecordsAreClean(Split(stored, RECORD_SEP));
  }

  lemma EmptyLibrary()
    ensures DecodeLibrary(Some(EncodeLibrary([]))) == []
  {
    assert EncodeAll([]) == [];
    assert Split("", RECORD_SEP) == [""];
    assert DecodeProxyEntry("") == None;
    assert [""][1..] == [];
    assert DecodeAll([""]) == DecodeAll([]);
  }

  predicate HasId(library: seq<ProxyLibraryEntry>, id: string) {
    exists i :: 0 <= i < |library| && library[i].id == id
  }

  // ----- what any stored library restores to --------------------------------------------------------

  /** Identifiers and hosts avoid the separators and ports fit; the error text may be anything. */
  predicate Storable(entries: seq<ProxyLibraryEntry>) {
    forall i :: 0 <= i < |entries| ==> StorableEntry(entries[i])
  }

  predicate StorableEntry(e: ProxyLibraryEntry) {
    && Free(e.id) && Free(e.host) && MIN_INT <= e.port <= MAX_INT
    && (e.status.latencyMs.Some? ==> MIN_LONG <= e.status.latencyMs.value <= MAX_LONG)
  }

  function ErrorText(e: ProxyLibraryEntry): string {
    if e.status.error.Some? then e.status.error.value else ""
  }

  /** An error text comes back up to its first separator; an empty one not at all. */
  function Cut(text: string): Option<string> {
    var kept := Split(Split(text, RECORD_SEP)[0], FIELD_SEP)[0];
    if kept == "" then None else Some(kept)
  }

  /** What one entry restores to: itself with its error cut, and whatever entries the rest of the error text spells. */
  function Restored(e: ProxyLibraryEntry): seq<ProxyLibraryEntry> {
    [e.(status := e.status.(error := Cut(ErrorText(e))))] + DecodeAll(Split(ErrorText(e), RECORD_SEP)[1..])
  }

  function RestoredAll(entries: seq<ProxyLibraryEntry>): seq<ProxyLibraryEntry> {
    if entries == [] then [] else Restored(entries[0]) + RestoredAll(entries[1..])
  }

  lemma {:induction false} DecodeAllAppend(records: seq<string>, more: seq<string>)
    ensures DecodeAll(records + more) == DecodeAll(records) + DecodeAll(more)
  {
    hide DecodeProxyEntry;
    if records == [] {
      assert records + more == more;
    } else {
      assert (records + more)[1..] == records[1..] + more;
      DecodeAllAppend(records[1..], more);
    }
  }

  /** The fields before the error text, each with the separator after it. */
  function Head(e: ProxyLibraryEntry): string {
    Join(Fields(e)[..5], FIELD_SEP) + [FIELD_SEP]
  }

  lemma HeadIsARecord(e: ProxyLibraryEntry)
    requires StorableEntry(e)
    ensures EncodeProxyEntry(e) == Head(e) + ErrorText(e)
    ensures RECORD_SEP !in Head(e)
    ensures forall f :: f in Fields(e)[..5] ==> FIELD_SEP !in f
  {
    hide Join, Numeral;
    var fields := Fields(e)[..5];
    JoinSnoc(fields, ErrorText(e), FIELD_SEP);
    assert fields + [ErrorText(e)] == Fields(e);
    NumeralIsFree(e.port);
    if e.status.latencyMs.Some? { NumeralIsFree(e.status.latencyMs.value); }
    JoinIsFree(fields, FIELD_SEP, RECORD_SEP);
  }

  /** A record that starts with an entry's head decodes to that entry, with an error read up to the next separator. */
  lemma HeadDecodes(e: ProxyLibraryEntry, rest: string)
    requires StorableEntry(e)
    ensures var error := Split(rest, FIELD_SEP)[0];
            DecodeProxyEntry(Head(e) + rest) ==
            Some(e.(status := e.status.(error := if error == "" then None else Some(error))))
  {
    hide ParseNumeral, Numeral, Split, Join;
    HeadIsARecord(e);
    var fields := Fields(e)[..5];
    SplitOfJoin(fields, FIELD_SEP);
    SplitAtAny(Join(fields, FIELD_SEP), FIELD_SEP, rest);
    assert Head(e) + rest == Join(fields, FIELD_SEP) + [FIELD_SEP] + rest;
    ParseOfNumeral(e.port, MIN_INT, MAX_INT);
    if e.status.latencyMs.Some? {
      NumeralIsFree(e.status.latencyMs.value);
      ParseOfNumeral(e.status.latencyMs.value, MIN_LONG, MAX_LONG);
    }
  }

  lemma EntryRestores(e: ProxyLibraryEntry)
    requires StorableEntry(e)
    ensures DecodeAll(Split(EncodeProxyEntry(e), RECORD_SEP)) == Restored(e)
  {
    hide DecodeProxyEntry, EncodeProxyEntry, Head, Split;
    HeadIsARecord(e);
    var pieces := Split(ErrorText(e), RECORD_SEP);
    SplitAfterFree(Head(e), ErrorText(e), RECORD_SEP);
    HeadDecodes(e, pieces[0]);
    assert ([Head(e) + pieces[0]] + pieces[1..])[1..] == pieces[1..];
  }

  /** Every library restores, entry by entry, to what its entries restore to. */
  lemma {:induction false} LibraryRestores(entries: seq<ProxyLibraryEntry>)
    requires Storable(entries)
    ensures DecodeLibrary(Some(EncodeLibrary(entries))) == RestoredAll(entries)
  {
    hide DecodeProxyEntry, EncodeProxyEntry, StorableEntry, Restored, Split;
    if entries == [] {
      EmptyLibrary();
    } else {
      EntryRestores(entries[0]);
      var rest := entries[1..];
      assert EncodeAll(entries)[1..] == EncodeAll(rest);
      if rest == [] {
        assert RestoredAll(entries) == Restored(entries[0]) + [];
      } else {
        LibraryRestores(rest);
        SplitAtAny(EncodeProxyEntry(entries[0]), RECORD_SEP, EncodeLibrary(rest));
        DecodeAllAppend(Split(EncodeProxyEntry(entries[0]), RECORD_SEP), Split(EncodeLibrary(rest), RECORD_SEP));
      }
    }
  }

  /** Nothing listed is lost: whatever its error text, an identifier of the library is one of the restored library. */
  lemma {:induction false} RestartKeepsIds(entries: seq<ProxyLibraryEntry>, id: string)
    ensures HasId(entries, id) ==> HasId(RestoredAll(entries), id)
  {
    if HasId(entries, id) {
      var i :| 0 <= i < |entries| && entries[i].id == id;
      var first: seq<ProxyLibraryEntry> := Restored(entries[0]);
      var rest: seq<ProxyLibraryEntry> := RestoredAll(entries[1..]);
      if i == 0 {
        assert (first + rest)[0].id == id;
      } else {
        assert entries[1..][i - 1].id == id;
        RestartKeepsIds(entries[1..], id);
        var k :| 0 <= k < |rest| && rest[k].id == id;
        assert (first + rest)[|first| + k].id == id;
      }
    }
  }

  /** Whatever was stored, what is read is clean, and so can be stored again. */
  lemma DecodedLibraryIsClean(stored: Option<string>)
    ensures CleanLibrary(DecodeLibrary(stored)) && Storable(DecodeLibrary(stored))
  {
    hide Split;
    if stored.Some? {
      SplitPiecesAreFree(stored.value, RECORD_SEP);
      DecodedRecordsAreClean(Split(stored.value, RECORD_SEP));
    }
  }

  // ----- the assignments ---------------------------------------------------------------------------

  datatype Assignment = Assignment(account: int, proxy: string)

  function EncodeAssignment(a: Assignment): string {
    Numeral(a.account) + [FIELD_SEP] + a.proxy
  }

  /** The account is what precedes the first separator, the proxy all that follows it. */
  function DecodeAssignment(record: string): Option<Assignment> {
    var pieces := Split(record, FIELD_SEP);
    var account := ParseNumeral(pieces[0], MIN_LONG, MAX_LONG);
    var proxy := Join(pieces[1..], FIELD_SEP);
    if account.None? || proxy == "" then None else Some(Assignment(account.value, proxy))
  }

  function EncodeAssignments(listing: seq<Assignment>): string {
    Join(seq(|listing|, i requires 0 <= i < |listing| => EncodeAssignment(listing[i])), RECORD_SEP)
  }

  function CollectAssignments(records: seq<string>): map<int, string> {
    if records == [] then map[]
    else
      var rest := CollectAssignments(records[..|records| - 1]);
      match DecodeAssignment(records[|records| - 1])
      case None => rest
      case Some(a) => rest[a.account := a.proxy]
  }

  function DecodeAssignments(stored: Option<string>): map<int, string> {
    match stored
    case None => map[]
    case Some(s) => CollectAssignments(Split(s, RECORD_SEP))
  }

  predicate Lists(listing: seq<Assignment>, m: map<int, string>) {
    && (forall i :: 0 <= i < |listing| ==> listing[i].account in m && m[listing[i].account] == listing[i].proxy)
    && (forall a :: a in m ==> Assignment(a, m[a]) in listing)
  }

  lemma AssignmentRoundTrip(a: Assignment)
    requires MIN_LONG <= a.account <= MAX_LONG
    ensures DecodeAssignment(EncodeAssignment(a)) == if a.proxy == "" then None else Some(a)
  {
    hide Numeral, ParseNumeral;
    NumeralIsFree(a.account);
    ParseOfNumeral(a.account, MIN_LONG, MAX_LONG);
    SplitAtFirst(Numeral(a.account), FIELD_SEP, a.proxy);
    JoinOfSplit(a.proxy, FIELD_SEP);
    var pieces := Split(EncodeAssignment(a), FIELD_SEP);
    assert pieces[0] == Numeral(a.account) && pieces[1..] == Split(a.proxy, FIELD_SEP);
  }

  lemma {:induction false} CollectOfEncoded(listing: seq<Assignment>, records: seq<string>, a: int)
    requires |records| == |listing|
    requires forall i :: 0 <= i < |listing| ==>
                           DecodeAssignment(records[i]) == if listing[i].proxy == "" then None else Some(listing[i])
    ensures var m := CollectAssignments(records);
            && (a in m <==> exists i :: 0 <= i < |listing| && listing[i].account == a && listing[i].proxy != "")
            && (a in m ==> exists i :: 0 <= i < |listing| && listing[i] == Assignment(a, m[a]) && m[a] != "")
  {
    hide DecodeAssignment;
    if listing != [] {
      var n := |listing| - 1;
      var front := CollectAssignments(records[..n]);
      CollectOfEncoded(listing[..n], records[..n], a);
      var m := CollectAssignments(records);
      assert m == if listing[n].proxy == "" then front else front[listing[n].account := listing[n].proxy];
      if a in m {
        if a == listing[n].account && listing[n].proxy != "" {
          assert listing[n] == Assignment(a, m[a]);
        } else {
          var i :| 0 <= i < n && listing[..n][i] == Assignment(a, front[a]) && front[a] != "";
          assert listing[i] == Assignment(a, m[a]);
        }
      }
      if i :| 0 <= i < |listing| && listing[i].account == a && listing[i].proxy != "" {
        assert i < n ==> listing[..n][i].account == a && listing[..n][i].proxy != "";
      }
    }
  }

  /** The assignments that survive being written: those to an entry with an identifier at all. */
  function Durable(m: map<int, string>): map<int, string> {
    map a | a in m && m[a] != "" :: m[a]
  }

  /** The assignment map reads back whatever order it was listed in, but for assignments to an empty identifier. */
  lemma AssignmentsRoundTrip(m: map<int, string>, listing: seq<Assignment>)
    requires Lists(listing, m)
    requires forall a :: a in m ==> MIN_LONG <= a <= MAX_LONG && RECORD_SEP !in m[a]
    ensures DecodeAssignments(Some(EncodeAssignments(listing))) == Durable(m)
  {
    hide DecodeAssignment, EncodeAssignment, Join, CollectAssignments;
    var records := seq(|listing|, i requires 0 <= i < |listing| => EncodeAssignment(listing[i]));
    if listing == [] {
      assert records == [];
      NoAssignments();
      ListedAccounts(listing, m);
      SameMap(map[], Durable(m));
    } else {
      forall i | 0 <= i < |listing|
        ensures DecodeAssignment(records[i]) == if listing[i].proxy == "" then None else Some(listing[i])
        ensures RECORD_SEP !in records[i]
      {
        AssignmentRoundTrip(listing[i]);
        AssignmentIsARecord(listing[i]);
      }
      SplitOfJoin(records, RECORD_SEP);
      var back := CollectAssignments(records);
      forall a ensures a in back <==> a in Durable(m)
        ensures a in back && a in Durable(m) ==> back[a] == Durable(m)[a]
      {
        CollectOfEncoded(listing, records, a);
        ListedOnce(listing, m, a);
      }
      SameMap(back, Durable(m));
    }
  }

  lemma ListedOnce(listing: seq<Assignment>, m: map<int, string>, a: int)
    requires Lists(listing, m)
    ensures a in m && m[a] != "" <==>
            exists i :: 0 <= i < |listing| && listing[i].account == a && listing[i].proxy != ""
    ensures forall i :: 0 <= i < |listing| && listing[i].account == a ==> a in m && listing[i].proxy == m[a]
  {
    if a in m {
      var i :| 0 <= i < |listing| && listing[i] == Assignment(a, m[a]);
      assert listing[i].account == a && listing[i].proxy == m[a];
    }
  }

  lemma SameMap(m: map<int, string>, n: map<int, string>)
    requires forall a :: a in m <==> a in n
    requires forall a :: a in m && a in n ==> m[a] == n[a]
    ensures m == n
  {
    forall a | a in m.Keys ensures a in n.Keys {}
    forall a | a in n.Keys ensures a in m.Keys {}
    assert m.Keys == n.Keys;
    forall a | a in m.Keys ensures m[a] == n[a] {}
  }

  lemma ListedAccounts(listing: seq<Assignment>, m: map<int, string>)
    requires Lists(listing, m)
    ensures forall a :: a in m <==> exists i :: 0 <= i < |listing| && listing[i].account == a
  {
    forall a | a in m ensures exists i :: 0 <= i < |listing| && listing[i].account == a {
      var i :| 0 <= i < |listing| && listing[i] == Assignment(a, m[a]);
      assert listing[i].account == a;
    }
  }

  lemma AssignmentIsARecord(a: Assignment)
    requires RECORD_SEP !in a.proxy
    ensures RECORD_SEP !in EncodeAssignment(a)
  {
    NumeralIsFree(a.account);
  }

  lemma NoAssignments()
    ensures DecodeAssignments(Some(Join([], RECORD_SEP))) == map[]
  {
    assert Split("", RECORD_SEP) == [""];
    assert Split("", FIELD_SEP) == [""];
    assert [""][..0] == [];
  }

  // ----- fresh identifiers ---------------------------------------------------------------------------

  function IdNumber(id: string): Option<int> {
    ParseNumeral(if id != "" && id[0] == 'p' then id[1..] else id, MIN_LONG, MAX_LONG)
  }

  /** The largest number among the identifiers that have one. */
  function MaxNumber(library: seq<ProxyLibraryEntry>): Option<int> {
    if library == [] then None
    else
      var rest := MaxNumber(library[1..]);
      var n := IdNumber(library[0].id);
      if n.None? then rest else if rest.Some? && rest.value > n.value then rest else n
  }

  /** 64-bit addition of one, wrapping. */
  function Increment(n: int): int {
    if n == MAX_LONG then MIN_LONG else n + 1
  }

  function NextProxyId(library: seq<ProxyLibraryEntry>): string {
    var max := MaxNumber(library);
    "p" + Numeral(Increment(if max.Some? then max.value else 0))
  }

  lemma {:induction false} MaxNumberIsMax(library: seq<ProxyLibraryEntry>)
    ensures forall i :: 0 <= i < |library| && IdNumber(library[i].id).Some? ==>
                          MaxNumber(library).Some? && IdNumber(library[i].id).value <= MaxNumber(library).value
    ensures MaxNumber(library).Some? ==>
              exists i :: 0 <= i < |library| && IdNumber(library[i].id) == MaxNumber(library)
  {
    hide IdNumber;
    if library != [] {
      MaxNumberIsMax(library[1..]);
      if MaxNumber(library) == MaxNumber(library[1..]) && MaxNumber(library).Some? {
        var i :| 0 <= i < |library[1..]| && IdNumber(library[1..][i].id) == MaxNumber(library);
        assert IdNumber(library[i + 1].id) == MaxNumber(library);
      }
    }
  }

  lemma NumberOfGenerated(n: int)
    requires MIN_LONG <= n <= MAX_LONG
    ensures IdNumber("p" + Numeral(n)) == Some(n)
  {
    hide ParseNumeral, Numeral;
    ParseOfNumeral(n, MIN_LONG, MAX_LONG);
    assert ("p" + Numeral(n))[1..] == Numeral(n);
  }

  lemma NumbersAreLongs(id: string)
    ensures IdNumber(id).Some? ==> MIN_LONG <= IdNumber(id).value <= MAX_LONG
  {
  }

  /** The number of an identifier is what follows a `p`, or all of it. */
  lemma NumbersOfIds(text: string)
    ensures IdNumber("p" + text) == ParseNumeral(text, -9223372036854775808, 9223372036854775807)
    ensures text == "" || text[0] != 'p' ==>
              IdNumber(text) == ParseNumeral(text, -9223372036854775808, 9223372036854775807)
  {
    assert ("p" + text)[1..] == text;
  }

  /** Generated identifiers count on from the largest number there is, the first being `p1`. */
  lemma NextIdIsOneMore(library: seq<ProxyLibraryEntry>, n: int)
    ensures (forall i :: 0 <= i < |library| ==> IdNumber(library[i].id) == None) ==>
              NextProxyId(library) == "p" + Numeral(1)
    ensures (exists i :: 0 <= i < |library| && IdNumber(library[i].id) == Some(n))
            && (forall i :: 0 <= i < |library| && IdNumber(library[i].id).Some? ==>
                              IdNumber(library[i].id).value <= n) ==>
              NextProxyId(library) == "p" + Numeral(if n == 9223372036854775807 then -9223372036854775808 else n + 1)
  {
    hide IdNumber, Numeral;
    MaxNumberIsMax(library);
  }

  /** The next identifier is already in the library exactly when the counter wraps onto it: some identifier has the
      largest 64-bit number, and the one with the smallest is taken. */
  lemma NextIdIsTakenIffWrapped(library: seq<ProxyLibraryEntry>)
    ensures HasId(library, NextProxyId(library)) <==>
            MaxNumber(library) == Some(MAX_LONG) && HasId(library, "p" + Numeral(MIN_LONG))
  {
    hide IdNumber, Numeral;
    MaxNumberIsMax(library);
    var max := MaxNumber(library);
    if max.Some? {
      var i :| 0 <= i < |library| && IdNumber(library[i].id) == max;
      NumbersAreLongs(library[i].id);
    }
    var n := Increment(if max.Some? then max.value else 0);
    NumberOfGenerated(n);
    if HasId(library, NextProxyId(library)) {
      var i :| 0 <= i < |library| && library[i].id == NextProxyId(library);
      assert n <= max.value;
    }
  }
}
