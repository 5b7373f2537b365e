/** Atomic saves: concurrent writers that stage, sync and rename, failing or crashing at any point. */
module AtomicWrite {
  import opened Wrappers
  import opened Bytes
  import opened Text

  /** A file's contents, and whether they would survive a crash. */
  datatype File = File(content: seq<Byte>, synced: bool)

  datatype Phase = Named | Writing(written: nat) | Synced

  /** One save call under way: what it saves, the number in its staging name, and how far it got. */
  datatype Writer = Writer(bytes: seq<Byte>, number: nat, phase: Phase)

  /** The disk and the process writing to it. `held` lists what the path has held since the last crash, the present
      file last: a crash may lose renames that were not yet durable. */
  datatype Disk = Disk(path: string, files: map<string, File>, writers: map<nat, Writer>, pid: nat, counter: nat,
                       held: seq<Option<File>>)

  datatype Action =
    | Begin(writer: nat, bytes: seq<Byte>)
    | Create(writer: nat)
    | WriteSome(writer: nat, count: nat)
    | SyncAll(writer: nat)
    | Rename(writer: nat)
    | Abandon(writer: nat, removed: bool)
    | Crash(pid: nat, leftovers: map<string, seq<Byte>>, shown: nat, torn: seq<Byte>)

  function TmpPathFor(path: string, pid: nat, number: nat): string {
    path + "." + Decimal(pid) + "." + Decimal(number) + ".tmp"
  }

  function Staging(d: Disk, w: nat): string
    requires w in d.writers
  {
    TmpPathFor(d.path, d.pid, d.writers[w].number)
  }

  function At(d: Disk, name: string): Option<File> {
    if name in d.files then Some(d.files[name]) else None
  }

  /** What a reader of the path sees. */
  function Visible(d: Disk): Option<seq<Byte>> {
    if d.path in d.files then Some(d.files[d.path].content) else None
  }

  predicate Enabled(d: Disk, a: Action) {
    match a
    case Begin(w, bytes) => w !in d.writers
    case Create(w) => w in d.writers && d.writers[w].phase == Named
    case WriteSome(w, count) =>
      && w in d.writers && d.writers[w].phase.Writing? && d.writers[w].phase.written + count <= |d.writers[w].bytes|
      && Staging(d, w) in d.files
    case SyncAll(w) =>
      && w in d.writers && d.writers[w].phase == Writing(|d.writers[w].bytes|) && Staging(d, w) in d.files
    case Rename(w) => w in d.writers && d.writers[w].phase == Synced && Staging(d, w) in d.files
    case Abandon(w, removed) => w in d.writers
    case Crash(pid, leftovers, shown, torn) => d.path !in leftovers && shown < |d.held|
  }

  function Step(d: Disk, a: Action): Disk
    requires Enabled(d, a)
  {
    match a
    case Begin(w, bytes) => d.(writers := d.writers[w := Writer(bytes, d.counter, Named)], counter := d.counter + 1)
    case Create(w) =>
      d.(files := d.files[Staging(d, w) := File([], false)],
         writers := d.writers[w := d.writers[w].(phase := Writing(0))])
    case WriteSome(w, count) =>
      var writer := d.writers[w];
      var written := writer.phase.written;
      var more := writer.bytes[written..written + count];
      d.(files := d.files[Staging(d, w) := File(d.files[Staging(d, w)].content + more, false)],
         writers := d.writers[w := writer.(phase := Writing(written + count))])
    case SyncAll(w) =>
      d.(files := d.files[Staging(d, w) := d.files[Staging(d, w)].(synced := true)],
         writers := d.writers[w := d.writers[w].(phase := Synced)])
    case Rename(w) =>
      var staged := d.files[Staging(d, w)];
      d.(files := (d.files - {Staging(d, w)})[d.path := staged],
         writers := d.writers - {w}, held := d.held + [Some(staged)])
    case Abandon(w, removed) =>
      d.(files := if removed then d.files - {Staging(d, w)} else d.files, writers := d.writers - {w})
    case Crash(pid, leftovers, shown, torn) =>
      var others := map name | name in leftovers :: File(leftovers[name], true);
      var present := match d.held[shown]
                     case None => None
                     case Some(f) => Some(File(if f.synced then f.content else torn, true));
      Disk(d.path, if present.Some? then others[d.path := present.value] else others, map[], pid, 0, [present])
  }

  /** What each step needs and does: a save stages under its own number, counting up; it may write only what is missing,
      sync only what is complete, and rename only what is synced. A crash takes the saves under way, and shows the path
      as it was after some rename: whole if that file was synced. */
  lemma StepsOfASave(d: Disk, a: Action)
    requires Enabled(d, a)
    ensures var e := Step(d, a);
            match a
            case Begin(w, bytes) =>
              && w !in d.writers
              && e == d.(writers := d.writers[w := Writer(bytes, d.counter, Named)], counter := d.counter + 1)
            case Create(w) =>
              && w in d.writers && d.writers[w].phase == Named
              && e == d.(files := e.files, writers := d.writers[w := d.writers[w].(phase := Writing(0))])
              && e.files == d.files[Staging(d, w) := File([], false)]
            case WriteSome(w, count) =>
              w in d.writers && Staging(d, w) in d.files && d.writers[w].phase.Writing?
              && var n, bytes, was := d.writers[w].phase.written, d.writers[w].bytes, d.files[Staging(d, w)];
                 && n + count <= |bytes|
                 && e == d.(files := e.files, writers := d.writers[w := d.writers[w].(phase := Writing(n + count))])
                 && e.files == d.files[Staging(d, w) := File(was.content + bytes[n..][..count], false)]
            case SyncAll(w) =>
              w in d.writers && Staging(d, w) in d.files && d.writers[w].phase == Writing(|d.writers[w].bytes|)
              && e == d.(files := e.files, writers := d.writers[w := d.writers[w].(phase := Synced)])
              && e.files == d.files[Staging(d, w) := File(d.files[Staging(d, w)].content, true)]
            case Rename(w) =>
              w in d.writers && Staging(d, w) in d.files && d.writers[w].phase == Synced
              && var staged := d.files[Staging(d, w)];
                 && e == d.(files := e.files, writers := d.writers - {w}, held := d.held + [Some(staged)])
                 && e.files == (d.files - {Staging(d, w)})[d.path := staged]
            case Abandon(w, removed) =>
              w in d.writers && e == d.(files := e.files, writers := d.writers - {w})
              && e.files == d.files - if removed then {Staging(d, w)} else {}
            case Crash(pid, leftovers, shown, torn) =>
              && e == Disk(d.path, e.files, map[], pid, 0, [At(e, d.path)]) && shown < |d.held|
              && (d.held[shown] == None <==> At(e, d.path) == None)
              && (d.held[shown].Some? ==>
                    At(e, d.path) == Some(File(if d.held[shown].value.synced then d.held[shown].value.content else torn,
                                               true)))
              && forall name :: name != d.path ==>
                   At(e, name) == if name in leftovers then Some(File(leftovers[name], true)) else None
  {
    hide TmpPathFor;
    if a.WriteSome? {
      var n, bytes := d.writers[a.writer].phase.written, d.writers[a.writer].bytes;
      assert bytes[n..n + a.count] == bytes[n..][..a.count];
    }
  }

  // ----- staging names -----------------------------------------------------------------------------

  lemma SameSuffix(a: string, b: string, s: string)
    requires a + s == b + s
    ensures a == b
  {
    assert (a + s)[..|a|] == a && (b + s)[..|b|] == b;
  }

  lemma SamePrefix(p: string, a: string, b: string)
    requires p + a == p + b
    ensures a == b
  {
    assert (p + a)[|p|..] == a && (p + b)[|p|..] == b;
  }

  /** Two saves of one process never share a staging name, and no staging name is the path itself. */
  lemma StagingNamesDiffer(path: string, pid: nat, m: nat, n: nat)
    ensures TmpPathFor(path, pid, m) == TmpPathFor(path, pid, n) <==> m == n
    ensures TmpPathFor(path, pid, n) != path
  {
    var head := path + "." + Decimal(pid) + ".";
    assert TmpPathFor(path, pid, m) == head + Decimal(m) + ".tmp";
    assert TmpPathFor(path, pid, n) == head + Decimal(n) + ".tmp";
    if TmpPathFor(path, pid, m) == TmpPathFor(path, pid, n) {
      SameSuffix(head + Decimal(m), head + Decimal(n), ".tmp");
      SamePrefix(head, Decimal(m), Decimal(n));
      DecimalIsInjective(m, n);
    }
    assert |TmpPathFor(path, pid, n)| > |path|;
  }

  // ----- the invariant -------------------------------------------------------------------------------

  /** What the staging file of a writer must hold at its phase. */
  predicate StagedRight(d: Disk, w: nat)
    requires w in d.writers
  {
    var writer := d.writers[w];
    match writer.phase
    case Named => true
    case Writing(written) =>
      && written <= |writer.bytes| && At(d, Staging(d, w)).Some?
      && At(d, Staging(d, w)).value.content == writer.bytes[..written]
    case Synced => At(d, Staging(d, w)) == Some(File(writer.bytes, true))
  }

  predicate Complete(f: Option<File>, saves: set<Option<seq<Byte>>>) {
    match f
    case None => None in saves
    case Some(file) => file.synced && Some(file.content) in saves
  }

  /** `saves` are what the path may show: the file (or absence) it started with and the complete arguments of saves. */
  ghost predicate Safe(d: Disk, saves: set<Option<seq<Byte>>>) {
    && (forall w :: w in d.writers ==>
                      d.writers[w].number < d.counter && Some(d.writers[w].bytes) in saves && StagedRight(d, w))
    && (forall v, w :: v in d.writers && w in d.writers && v != w ==> d.writers[v].number != d.writers[w].number)
    && (forall i :: 0 <= i < |d.held| ==> Complete(d.held[i], saves))
    && d.held != [] && d.held[|d.held| - 1] == At(d, d.path)
  }

  function Offered(a: Action): set<Option<seq<Byte>>> {
    if a.Begin? then {Some(a.bytes)} else {}
  }

  /** A step of one writer touches no other writer's staging file, and the path only by a rename. */
  lemma OthersAreUntouched(d: Disk, a: Action, saves: set<Option<seq<Byte>>>, v: nat)
    requires Safe(d, saves) && Enabled(d, a) && !a.Crash? && v in d.writers && v != a.writer
    ensures v in Step(d, a).writers && Step(d, a).writers[v] == d.writers[v]
    ensures At(Step(d, a), Staging(d, v)) == At(d, Staging(d, v))
  {
    StagingNamesDiffer(d.path, d.pid, d.writers[v].number, d.writers[v].number);
    if a.writer in d.writers {
      StagingNamesDiffer(d.path, d.pid, d.writers[a.writer].number, d.writers[v].number);
    }
  }

  lemma StepIsSafe(d: Disk, a: Action, saves: set<Option<seq<Byte>>>)
    requires Safe(d, saves) && Enabled(d, a)
    ensures Safe(Step(d, a), saves + Offered(a))
  {
    hide TmpPathFor, StagedRight, Complete, Step, Enabled;
    if a.Crash? {
      CrashIsSafe(d, a, saves);
    } else {
      var e := Step(d, a);
      WritersStayNumbered(d, a, saves);
      HeldStaysComplete(d, a, saves);
      forall v | v in e.writers ensures StagedRight(e, v) {
        if v == a.writer {
          OwnFileIsRight(d, a, saves);
        } else {
          OthersStayRight(d, a, saves, v);
        }
      }
    }
  }

  lemma WritersStayNumbered(d: Disk, a: Action, saves: set<Option<seq<Byte>>>)
    requires Safe(d, saves) && Enabled(d, a) && !a.Crash?
    ensures var e := Step(d, a);
            && (forall w :: w in e.writers ==>
                              e.writers[w].number < e.counter && Some(e.writers[w].bytes) in saves + Offered(a)
                              && (w in d.writers || w == a.writer))
            && (forall v, w :: v in e.writers && w in e.writers && v != w ==>
                                 e.writers[v].number != e.writers[w].number)
  {
    hide TmpPathFor, StagedRight, Complete;
  }

  lemma HeldStaysComplete(d: Disk, a: Action, saves: set<Option<seq<Byte>>>)
    requires Safe(d, saves) && Enabled(d, a) && !a.Crash?
    ensures var e := Step(d, a);
            && (forall i :: 0 <= i < |e.held| ==> Complete(e.held[i], saves + Offered(a)))
            && e.held != [] && e.held[|e.held| - 1] == At(e, e.path)
  {
    hide TmpPathFor;
    PathChangesByRenameOnly(d, a, saves);
    var e := Step(d, a);
    forall i | 0 <= i < |e.held| ensures Complete(e.held[i], saves + Offered(a)) {
      if i < |d.held| {
        assert Complete(d.held[i], saves);
      }
    }
  }

  lemma CrashIsSafe(d: Disk, a: Action, saves: set<Option<seq<Byte>>>)
    requires Safe(d, saves) && Enabled(d, a) && a.Crash?
    ensures Safe(Step(d, a), saves + Offered(a))
  {
    assert Complete(d.held[a.shown], saves);
  }

  lemma OthersStayRight(d: Disk, a: Action, saves: set<Option<seq<Byte>>>, v: nat)
    requires Safe(d, saves) && Enabled(d, a) && !a.Crash? && v in d.writers && v != a.writer
    ensures v in Step(d, a).writers && StagedRight(Step(d, a), v)
  {
    hide TmpPathFor;
    OthersAreUntouched(d, a, saves, v);
  }

  /** Only a rename changes the path, and it installs exactly the bytes of its save: a save that fails leaves the
      path untouched. */
  lemma PathChangesByRenameOnly(d: Disk, a: Action, saves: set<Option<seq<Byte>>>)
    requires Safe(d, saves) && Enabled(d, a) && !a.Crash?
    ensures At(Step(d, a), d.path) == if a.Rename? then Some(File(d.writers[a.writer].bytes, true)) else At(d, d.path)
  {
    hide TmpPathFor;
    if a.writer in d.writers {
      StagingNamesDiffer(d.path, d.pid, d.writers[a.writer].number, d.writers[a.writer].number);
    }
  }

  lemma OwnFileIsRight(d: Disk, a: Action, saves: set<Option<seq<Byte>>>)
    requires Safe(d, saves) && Enabled(d, a) && !a.Crash? && a.writer in Step(d, a).writers
    ensures StagedRight(Step(d, a), a.writer)
  {
    if a.SyncAll? {
      assert d.writers[a.writer].bytes[..|d.writers[a.writer].bytes|] == d.writers[a.writer].bytes;
    }
    if a.WriteSome? {
      var writer := d.writers[a.writer];
      var written := writer.phase.written;
      assert writer.bytes[..written] + writer.bytes[written..written + a.count] == writer.bytes[..written + a.count];
    }
  }

  // ----- runs ----------------------------------------------------------------------------------------

  predicate IsRun(d: Disk, actions: seq<Action>)
    decreases |actions|
  {
    actions != [] ==> Enabled(d, actions[0]) && IsRun(Step(d, actions[0]), actions[1..])
  }

  function Final(d: Disk, actions: seq<Action>): Disk
    requires IsRun(d, actions)
    decreases |actions|
  {
    if actions == [] then d else Final(Step(d, actions[0]), actions[1..])
  }

  function AllOffered(actions: seq<Action>): set<Option<seq<Byte>>> {
    if actions == [] then {} else Offered(actions[0]) + AllOffered(actions[1..])
  }

  lemma {:induction false} RunIsSafe(d: Disk, actions: seq<Action>, saves: set<Option<seq<Byte>>>)
    requires Safe(d, saves) && IsRun(d, actions)
    ensures Safe(Final(d, actions), saves + AllOffered(actions))
    decreases |actions|
  {
    hide Safe, Step, Enabled;
    if actions == [] {
      assert saves + AllOffered(actions) == saves;
    } else {
      StepIsSafe(d, actions[0], saves);
      RunIsSafe(Step(d, actions[0]), actions[1..], saves + Offered(actions[0]));
      assert saves + Offered(actions[0]) + AllOffered(actions[1..]) == saves + AllOffered(actions);
    }
  }

  /** A process that has just started on a disk whose path holds `original`, among whatever stale staging files. */
  ghost predicate Started(d: Disk, original: Option<seq<Byte>>) {
    && d.writers == map[] && d.held == [At(d, d.path)]
    && Visible(d) == original && (d.path in d.files ==> d.files[d.path].synced)
  }

  /** In every interleaving of saves, failures and crashes, the path shows its original bytes or the complete bytes
      of one save call. */
  lemma PathIsAlwaysComplete(d: Disk, original: Option<seq<Byte>>, actions: seq<Action>)
    requires Started(d, original) && IsRun(d, actions)
    ensures Visible(Final(d, actions)) == original || Visible(Final(d, actions)) in AllOffered(actions)
  {
    hide IsRun, Final, AllOffered;
    RunIsSafe(d, actions, {original});
    VisibleIsSafe(Final(d, actions), {original} + AllOffered(actions));
  }

  lemma VisibleIsSafe(d: Disk, saves: set<Option<seq<Byte>>>)
    requires Safe(d, saves)
    ensures Visible(d) in saves
  {
    assert Complete(d.held[|d.held| - 1], saves);
  }

  // ----- one save ------------------------------------------------------------------------------------

  /** Where the file system lets a save down: a write may stop after any number of bytes. */
  datatype Fault = NoFault | CreateFails | WriteFails(after: nat) | SyncFails | RenameFails

  predicate Harmless(fault: Fault, bytes: seq<Byte>) {
    fault.NoFault? || (fault.WriteFails? && fault.after >= |bytes|)
  }

  /** The process's view of the disk, with the steps of one save in program order. Any step may fail. */
  class FileSystem {
    var disk: Disk

    method Do(a: Action, ghost saves: set<Option<seq<Byte>>>)
      requires Safe(disk, saves) && Enabled(disk, a) && !a.Crash? && Offered(a) <= saves
      modifies this
      ensures disk == Step(old(disk), a) && Safe(disk, saves)
      ensures At(disk, old(disk.path)) ==
              if a.Rename? then Some(File(old(disk).writers[a.writer].bytes, true)) else At(old(disk), old(disk.path))
    {
      hide Safe, Step, Enabled;
      StepIsSafe(disk, a, saves);
      PathChangesByRenameOnly(disk, a, saves);
      assert saves + Offered(a) == saves;
      disk := Step(disk, a);
    }

    /** A save that succeeds shows its bytes at the path; one that fails leaves what was there. Either way it takes
        one staging number and disturbs no other save. */
    method WriteAtomic(w: nat, bytes: seq<Byte>, fault: Fault, ghost saves: set<Option<seq<Byte>>>)
      returns (ok: bool)
      requires Safe(disk, saves) && w !in disk.writers && Some(bytes) in saves
      modifies this
      ensures Safe(disk, saves)
      ensures ok <==> Harmless(fault, bytes)
      ensures At(disk, disk.path) == if ok then Some(File(bytes, true)) else At(old(disk), disk.path)
      ensures disk.path == old(disk.path) && disk.counter == old(disk.counter) + 1
      ensures disk.writers == old(disk.writers)
    {
      hide Safe, StagedRight, TmpPathFor, At;
      Do(Begin(w, bytes), saves);
      assert disk.writers - {w} == old(disk.writers);
      if fault.CreateFails? { GiveUp(w, saves); return false; }
      Do(Create(w), saves);
      assert disk.writers - {w} == old(disk.writers);
      ok := WriteAll(w, bytes, if fault.WriteFails? then Some(fault.after) else None, saves);
      if !ok || fault.SyncFails? { GiveUp(w, saves); return false; }
      Do(SyncAll(w), saves);
      assert disk.writers - {w} == old(disk.writers);
      if fault.RenameFails? { GiveUp(w, saves); return false; }
      Do(Rename(w), saves);
      ok := true;
    }

    /** Writes everything, in chunks of whatever size, unless the file system stops after `limit` bytes. */
    method WriteAll(w: nat, bytes: seq<Byte>, limit: Option<nat>, ghost saves: set<Option<seq<Byte>>>)
      returns (ok: bool)
      requires Safe(disk, saves) && w in disk.writers && disk.writers[w].bytes == bytes
      requires disk.writers[w].phase == Writing(0) && Staging(disk, w) in disk.files
      modifies this
      ensures Safe(disk, saves)
      ensures ok <==> limit.None? || limit.value >= |bytes|
      ensures At(disk, disk.path) == At(old(disk), disk.path)
      ensures disk.path == old(disk.path) && disk.pid == old(disk.pid) && disk.counter == old(disk.counter)
      ensures w in disk.writers && disk.writers - {w} == old(disk.writers) - {w} && Staging(disk, w) in disk.files
      ensures ok ==> disk.writers[w] == old(disk.writers)[w].(phase := Writing(|bytes|))
    {
      hide Safe, StagedRight, TmpPathFor, At;
      var written := 0;
      while written < |bytes|
        invariant 0 <= written <= |bytes|
        invariant limit.Some? ==> written <= limit.value
        invariant Safe(disk, saves)
        invariant w in disk.writers && disk.writers[w] == old(disk.writers)[w].(phase := Writing(written))
        invariant disk.writers - {w} == old(disk.writers) - {w}
        invariant Staging(disk, w) in disk.files
        invariant At(disk, disk.path) == At(old(disk), disk.path)
        invariant disk.path == old(disk.path) && disk.pid == old(disk.pid) && disk.counter == old(disk.counter)
      {
        var count: nat := *;
        count := if 1 <= count <= |bytes| - written then count else 1;
        if limit.Some? && written + count > limit.value { return false; }
        Do(WriteSome(w, count), saves);
        written := written + count;
      }
      ok := true;
    }

    /** Removes the staging file if that works. */
    method GiveUp(w: nat, ghost saves: set<Option<seq<Byte>>>)
      requires Safe(disk, saves) && w in disk.writers
      modifies this
      ensures Safe(disk, saves)
      ensures At(disk, disk.path) == At(old(disk), disk.path)
      ensures disk.path == old(disk.path) && disk.counter == old(disk.counter)
      ensures disk.writers == old(disk.writers) - {w}
    {
      hide Safe, StagedRight, TmpPathFor, At;
      var removed: bool := *;
      Do(Abandon(w, removed), saves);
    }
  }
}
