/** Dirty tracking: epochs of mutations against epochs on disk, under arbitrary interleaving. */
module Tracker {
  import opened Wrappers

  /** One save under way: it captures the epoch, then the core's state, writes it, and publishes the epoch by
      compare-and-set. */
  datatype Saver =
    | Captured(epoch: nat)
    | Snapped(epoch: nat, snapshot: set<nat>)
    | Publishing(epoch: nat)
    | Comparing(epoch: nat, current: nat)

  /** Mutations are numbered arbitrarily. `applied` are those the core has seen, `marked` those marked, in marking
      order, so that the mutation epoch is its length; `disk` are those in the state file. `checks` holds, for each
      pending `requiresSave`, the mutation epoch it has read. */
  datatype State = State(
    guarded: bool, holder: Option<nat>, applied: set<nat>, marked: seq<nat>, persisted: nat, disk: set<nat>,
    savers: map<nat, Saver>, checks: map<nat, nat>)

  datatype Action =
    | Mutate(id: nat)
    | Mark(id: nat)
    | Capture(saver: nat)
    | Snap(saver: nat)
    | Write(saver: nat)
    | Fail(saver: nat)
    | ReadPersisted(saver: nat)
    | CompareAndSet(saver: nat)
    | BeginCheck(check: nat)
    | EndCheck(check: nat)

  predicate Enabled(s: State, a: Action) {
    match a
    case Mutate(id) => id !in s.applied
    case Mark(id) => id in s.applied && id !in s.marked
    case Capture(w) => w !in s.savers && (s.guarded ==> s.holder.None?)
    case Snap(w) => w in s.savers && s.savers[w].Captured?
    case Write(w) => w in s.savers && s.savers[w].Snapped?
    case Fail(w) => w in s.savers && (s.savers[w].Captured? || s.savers[w].Snapped?)
    case ReadPersisted(w) => w in s.savers && s.savers[w].Publishing?
    case CompareAndSet(w) => w in s.savers && s.savers[w].Comparing?
    case BeginCheck(r) => r !in s.checks
    case EndCheck(r) => r in s.checks
  }

  function Finish(s: State, w: nat): State {
    s.(savers := s.savers - {w}, holder := None)
  }

  function Step(s: State, a: Action): State
    requires Enabled(s, a)
  {
    match a
    case Mutate(id) => s.(applied := s.applied + {id})
    case Mark(id) => s.(marked := s.marked + [id])
    case Capture(w) => s.(savers := s.savers[w := Captured(|s.marked|)], holder := Some(w))
    case Snap(w) => s.(savers := s.savers[w := Snapped(s.savers[w].epoch, s.applied)])
    case Write(w) => s.(disk := s.savers[w].snapshot, savers := s.savers[w := Publishing(s.savers[w].epoch)])
    case Fail(w) => Finish(s, w)
    case ReadPersisted(w) =>
      if s.persisted >= s.savers[w].epoch then Finish(s, w)
      else s.(savers := s.savers[w := Comparing(s.savers[w].epoch, s.persisted)])
    case CompareAndSet(w) =>
      if s.persisted == s.savers[w].current then Finish(s.(persisted := s.savers[w].epoch), w)
      else s.(savers := s.savers[w := Publishing(s.savers[w].epoch)])
    case BeginCheck(r) => s.(checks := s.checks[r := |s.marked|])
    case EndCheck(r) => s.(checks := s.checks - {r})
  }

  /** What a pending `requiresSave` answers if it reads the persisted epoch now. */
  predicate RequiresSave(s: State, r: nat)
    requires r in s.checks
  {
    s.checks[r] != s.persisted
  }

  predicate OnDisk(s: State, epoch: nat)
    requires epoch <= |s.marked|
  {
    forall i :: 0 <= i < epoch ==> s.marked[i] in s.disk
  }

  // ----- with or without the mutex -----------------------------------------------------------------

  predicate GoodSaver(s: State, w: nat)
    requires w in s.savers
  {
    var saver := s.savers[w];
    && saver.epoch <= |s.marked|
    && (saver.Snapped? ==> forall i :: 0 <= i < saver.epoch ==> s.marked[i] in saver.snapshot)
    && (saver.Comparing? ==> saver.current < saver.epoch && saver.current <= s.persisted)
  }

  ghost predicate Consistent(s: State) {
    && s.persisted <= |s.marked|
    && (forall i :: 0 <= i < |s.marked| ==> s.marked[i] in s.applied)
    && (forall w :: w in s.savers ==> GoodSaver(s, w))
    && (forall r :: r in s.checks ==> s.checks[r] <= |s.marked|)
  }

  /** The persisted epoch never passes the mutation epoch and never goes back. */
  lemma StepIsConsistent(s: State, a: Action)
    requires Consistent(s) && Enabled(s, a)
    ensures Consistent(Step(s, a))
    ensures s.persisted <= Step(s, a).persisted <= |Step(s, a).marked|
    ensures s.marked <= Step(s, a).marked
  {
    var t := Step(s, a);
    forall w | w in t.savers ensures GoodSaver(t, w) {
      assert w in s.savers ==> GoodSaver(s, w);
    }
  }

  /** A failed compare-and-set means another save got further: the distance left to publish has shrunk. */
  lemma FailedCompareShrinksTheGap(s: State, w: nat)
    requires Consistent(s) && w in s.savers && s.savers[w].Comparing? && s.persisted != s.savers[w].current
    ensures s.savers[w].epoch - s.persisted < s.savers[w].epoch - s.savers[w].current
  {
    assert GoodSaver(s, w);
  }

  predicate IsRun(s: State, actions: seq<Action>)
    decreases |actions|
  {
    actions != [] ==> Enabled(s, actions[0]) && IsRun(Step(s, actions[0]), actions[1..])
  }

  function Final(s: State, actions: seq<Action>): State
    requires IsRun(s, actions)
    decreases |actions|
  {
    if actions == [] then s else Final(Step(s, actions[0]), actions[1..])
  }

  lemma {:induction false} EpochsAreMonotone(s: State, actions: seq<Action>)
    requires Consistent(s) && IsRun(s, actions)
    ensures var t := Final(s, actions);
            Consistent(t) && s.persisted <= t.persisted <= |t.marked| && s.marked <= t.marked
    decreases |actions|
  {
    hide Enabled, Step;
    if actions != [] {
      StepIsConsistent(s, actions[0]);
      EpochsAreMonotone(Step(s, actions[0]), actions[1..]);
    }
  }

  /** How often the compare-and-set of `w` fails in a run. */
  function Failures(s: State, actions: seq<Action>, w: nat): nat
    requires IsRun(s, actions)
    decreases |actions|
  {
    if actions == [] then 0
    else
      var failed := actions[0] == CompareAndSet(w) && s.persisted != s.savers[w].current;
      (if failed then 1 else 0) + Failures(Step(s, actions[0]), actions[1..], w)
  }

  function Gap(s: State, w: nat): nat {
    if w !in s.savers then 0
    else
      match s.savers[w]
      case Comparing(epoch, current) => if current < epoch then epoch - current else 0
      case saver => if s.persisted < saver.epoch then saver.epoch - s.persisted else 0
  }

  /** The publishing loop of a save ends: whatever the other threads do, it fails at most once per epoch it is
      behind. */
  lemma {:induction false} PublishingTerminates(s: State, actions: seq<Action>, w: nat)
    requires Consistent(s) && IsRun(s, actions) && Capture(w) !in actions
    ensures Failures(s, actions, w) <= Gap(s, w)
    decreases |actions|
  {
    hide Consistent;
    if actions != [] {
      StepIsConsistent(s, actions[0]);
      GapShrinks(s, actions[0], w);
      PublishingTerminates(Step(s, actions[0]), actions[1..], w);
    }
  }

  lemma GapShrinks(s: State, a: Action, w: nat)
    requires Consistent(s) && Enabled(s, a) && a != Capture(w)
    ensures var failed := a == CompareAndSet(w) && s.persisted != s.savers[w].current;
            Gap(Step(s, a), w) + (if failed then 1 else 0) <= Gap(s, w)
  {
    StepIsConsistent(s, a);
    if w in s.savers {
      assert GoodSaver(s, w);
    }
  }

  // ----- under the mutex ---------------------------------------------------------------------------

  /** While a save holds the mutex nobody else publishes, so what is on disk covers the persisted epoch, and the
      holder's snapshot will too. */
  ghost predicate Guarded(s: State) {
    && s.guarded
    && Consistent(s)
    && (forall w :: w in s.savers ==> s.holder == Some(w) && s.persisted <= s.savers[w].epoch)
    && (forall w :: w in s.savers && (s.savers[w].Publishing? || s.savers[w].Comparing?) ==>
                      OnDisk(s, s.savers[w].epoch))
    && OnDisk(s, s.persisted)
  }

  lemma StepIsGuarded(s: State, a: Action)
    requires Guarded(s) && Enabled(s, a)
    ensures Guarded(Step(s, a))
  {
    StepIsConsistent(s, a);
    if a.Write? {
      assert GoodSaver(s, a.saver);
    }
  }

  lemma {:induction false} RunIsGuarded(s: State, actions: seq<Action>)
    requires Guarded(s) && IsRun(s, actions)
    ensures Guarded(Final(s, actions))
    decreases |actions|
  {
    hide Guarded, Enabled, Step;
    if actions != [] {
      StepIsGuarded(s, actions[0]);
      RunIsGuarded(Step(s, actions[0]), actions[1..]);
    }
  }

  lemma {:induction false} CheckRemembers(s: State, actions: seq<Action>, r: nat)
    requires IsRun(s, actions) && r in s.checks && EndCheck(r) !in actions
    ensures r in Final(s, actions).checks && Final(s, actions).checks[r] == s.checks[r]
    decreases |actions|
  {
    if actions != [] {
      CheckRemembers(Step(s, actions[0]), actions[1..], r);
    }
  }

  /** No mutation is lost. In every interleaving, if `requiresSave` answers false then every mutation marked before
      it was called is in the state file when it answers. */
  lemma NoMutationIsLost(s: State, r: nat, during: seq<Action>)
    requires Guarded(s) && Enabled(s, BeginCheck(r))
    requires IsRun(Step(s, BeginCheck(r)), during) && EndCheck(r) !in during
    ensures var t := Final(Step(s, BeginCheck(r)), during);
            && r in t.checks
            && (!RequiresSave(t, r) ==> forall id :: id in s.marked ==> id in t.disk)
  {
    hide IsRun, Final;
    var begun := Step(s, BeginCheck(r));
    StepIsGuarded(s, BeginCheck(r));
    CheckRemembers(begun, during, r);
    RunIsGuarded(begun, during);
    EpochsAreMonotone(begun, during);
    var t := Final(begun, during);
    if !RequiresSave(t, r) {
      forall id | id in s.marked ensures id in t.disk {
        var i :| 0 <= i < |s.marked| && s.marked[i] == id;
        assert t.marked[i] == id;
      }
    }
  }

  /** A process that has just restored what is on disk. */
  function Started(guarded: bool, restored: set<nat>): State {
    State(guarded, None, restored, [], 0, restored, map[], map[])
  }

  lemma StartedIsGuarded(restored: set<nat>)
    ensures Guarded(Started(true, restored))
  {
  }

  /** In particular in a process that starts from what is on disk, whatever runs before and during the call. */
  lemma NoMutationIsEverLost(restored: set<nat>, before: seq<Action>, r: nat, during: seq<Action>)
    requires IsRun(Started(true, restored), before)
    requires var s := Final(Started(true, restored), before);
             Enabled(s, BeginCheck(r)) && IsRun(Step(s, BeginCheck(r)), during)
    requires EndCheck(r) !in during
    ensures var s := Final(Started(true, restored), before);
            var t := Final(Step(s, BeginCheck(r)), during);
            r in t.checks && (!RequiresSave(t, r) ==> forall id :: id in s.marked ==> id in t.disk)
  {
    hide IsRun, Final, Guarded;
    StartedIsGuarded(restored);
    RunIsGuarded(Started(true, restored), before);
    NoMutationIsLost(Final(Started(true, restored), before), r, during);
  }

  /** A save that is not overtaken acknowledges what it captured: with no later mutation nothing is dirty. */
  lemma FinishedSaveAcknowledges(s: State, a: Action, w: nat)
    requires Consistent(s) && Enabled(s, a) && w in s.savers && w !in Step(s, a).savers && !a.Fail?
    ensures s.savers[w].epoch <= Step(s, a).persisted
    ensures s.savers[w].epoch == |s.marked| ==> Step(s, a).persisted == |Step(s, a).marked|
  {
    StepIsConsistent(s, a);
    assert GoodSaver(s, w);
  }

  // ----- what the mutex is for ----------------------------------------------------------------------

  /** Without the mutex two overlapping saves can lose a marked mutation for good: the older snapshot lands last
      while the newer epoch stays published. */
  function Overlap(): seq<Action> {
    [Capture(0), Snap(0), Mutate(7), Mark(7), Capture(1), Snap(1), Write(1), ReadPersisted(1), CompareAndSet(1),
     Write(0), ReadPersisted(0), BeginCheck(0)]
  }

  lemma RunBack(s: State, actions: seq<Action>, i: nat)
    requires i < |actions| && Enabled(s, actions[i]) && IsRun(Step(s, actions[i]), actions[i + 1..])
    ensures IsRun(s, actions[i..])
    ensures Final(s, actions[i..]) == Final(Step(s, actions[i]), actions[i + 1..])
  {
    assert actions[i..][1..] == actions[i + 1..];
  }

  lemma NothingLeftToDo(s: State)
    ensures IsRun(s, []) && Final(s, []) == s
  {
  }

  /** Both saves have their snapshots, the second one's including the mutation. */
  const HALFWAY := State(false, Some(1), {7}, [7], 0, {}, map[0 := Snapped(0, {}), 1 := Snapped(1, {7})], map[])

  const LOST := State(false, None, {7}, [7], 1, {}, map[], map[0 := 1])

  lemma OverlapSecondHalf()
    ensures IsRun(HALFWAY, Overlap()[6..]) && Final(HALFWAY, Overlap()[6..]) == LOST
  {
    hide IsRun, Final;
    var a := Overlap();
    var s7 := Step(HALFWAY, Write(1));
    var s8 := Step(s7, ReadPersisted(1));
    var s9 := Step(s8, CompareAndSet(1));
    var s10 := Step(s9, Write(0));
    var s11 := Step(s10, ReadPersisted(0));
    var s12 := Step(s11, BeginCheck(0));
    assert s12.checks == LOST.checks && s12.savers == LOST.savers;
    assert s12 == LOST;
    assert a[12..] == [];
    NothingLeftToDo(LOST);
    RunBack(s11, a, 11);
    RunBack(s10, a, 10);
    RunBack(s9, a, 9);
    RunBack(s8, a, 8);
    RunBack(s7, a, 7);
    RunBack(HALFWAY, a, 6);
  }

  /** The first save has captured its epoch and snapshot; the mutation is applied and marked. */
  const QUARTER := State(false, Some(0), {7}, [7], 0, {}, map[0 := Snapped(0, {})], map[])

  lemma OverlapFirstQuarter()
    ensures var s := Started(false, {});
            IsRun(QUARTER, Overlap()[4..]) ==>
              IsRun(s, Overlap()) && Final(s, Overlap()) == Final(QUARTER, Overlap()[4..])
  {
    hide IsRun, Final;
    var a := Overlap();
    var s0 := Started(false, {});
    var s1 := Step(s0, Capture(0));
    var s2 := Step(s1, Snap(0));
    var s3 := Step(s2, Mutate(7));
    assert s3.applied == {7};
    var s4 := Step(s3, Mark(7));
    assert s4.applied == {7} && s4.marked == [7] && s4.savers == QUARTER.savers;
    assert s4 == QUARTER;
    if IsRun(QUARTER, a[4..]) {
      RunBack(s3, a, 3);
      RunBack(s2, a, 2);
      RunBack(s1, a, 1);
      RunBack(s0, a, 0);
      assert a[0..] == a;
    }
  }

  lemma OverlapSecondQuarter()
    ensures IsRun(HALFWAY, Overlap()[6..]) ==>
              IsRun(QUARTER, Overlap()[4..]) && Final(QUARTER, Overlap()[4..]) == Final(HALFWAY, Overlap()[6..])
  {
    hide IsRun, Final;
    var a := Overlap();
    var s5 := Step(QUARTER, Capture(1));
    assert Step(s5, Snap(1)).savers == HALFWAY.savers;
    assert Step(s5, Snap(1)) == HALFWAY;
    if IsRun(HALFWAY, a[6..]) {
      RunBack(s5, a, 5);
      RunBack(QUARTER, a, 4);
    }
  }

  lemma WithoutTheMutexMutationsAreLost()
    ensures var s := Started(false, {});
            && IsRun(s, Overlap())
            && var t := Final(s, Overlap());
               t.marked == [7] && 0 in t.checks && !RequiresSave(t, 0) && 7 !in t.disk && t.savers == map[]
  {
    hide IsRun, Final, Step;
    OverlapSecondHalf();
    OverlapSecondQuarter();
    OverlapFirstQuarter();
  }

  // ----- the tracker object -------------------------------------------------------------------------

  /** Whether an action is one thread's own: a step of its save, or of its check. */
  predicate Mine(a: Action, saver: Option<nat>, check: Option<nat>) {
    match a
    case Mutate(_) => false
    case Mark(_) => false
    case BeginCheck(r) => check == Some(r)
    case EndCheck(r) => check == Some(r)
    case _ => saver == Some(a.saver)
  }

  /** `t` is reached from `s` by steps of other threads only. */
  ghost predicate Others(s: State, t: State, saver: Option<nat>, check: Option<nat>, steps: seq<Action>) {
    && IsRun(s, steps) && t == Final(s, steps)
    && forall i :: 0 <= i < |steps| ==> !Mine(steps[i], saver, check)
  }

  lemma {:induction false} RunLast(s: State, steps: seq<Action>, a: Action)
    requires IsRun(s, steps) && Enabled(Final(s, steps), a)
    ensures IsRun(s, steps + [a]) && Final(s, steps + [a]) == Step(Final(s, steps), a)
    decreases |steps|
  {
    if steps == [] {
      assert [] + [a] == [a] && [a][1..] == [];
    } else {
      assert (steps + [a])[1..] == steps[1..] + [a];
      RunLast(Step(s, steps[0]), steps[1..], a);
    }
  }

  /** While `w` saves, other threads leave its step alone; under the mutex nobody else writes or publishes. */
  lemma {:induction false} OthersLeaveMine(s: State, t: State, w: nat, check: Option<nat>, steps: seq<Action>)
    requires Others(s, t, Some(w), check, steps) && w in s.savers
    ensures w in t.savers && t.savers[w] == s.savers[w]
    ensures s.applied <= t.applied && s.marked <= t.marked
    ensures Consistent(s) ==> Consistent(t) && s.persisted <= t.persisted
    ensures Guarded(s) ==> Guarded(t) && t.disk == s.disk && t.persisted == s.persisted && t.holder == s.holder
    decreases |steps|
  {
    hide Guarded, Consistent;
    if steps != [] {
      OtherLeavesMine(s, steps[0], w, check);
      OthersLeaveMine(Step(s, steps[0]), t, w, check, steps[1..]);
    }
  }

  lemma OtherLeavesMine(s: State, a: Action, w: nat, check: Option<nat>)
    requires Enabled(s, a) && !Mine(a, Some(w), check) && w in s.savers
    ensures var t := Step(s, a);
            && w in t.savers && t.savers[w] == s.savers[w]
            && s.applied <= t.applied && s.marked <= t.marked
            && (Consistent(s) ==> Consistent(t) && s.persisted <= t.persisted)
            && (Guarded(s) ==> Guarded(t) && t.disk == s.disk && t.persisted == s.persisted && t.holder == s.holder)
  {
    hide Consistent;
    if Guarded(s) { StepIsGuarded(s, a); }
    if Consistent(s) { StepIsConsistent(s, a); }
  }

  /** The tracker's two atomics, in the process around them. Every method is a sequence of steps of the machine, with
      arbitrary steps of other threads between its atomic accesses. */
  class PersistenceStateTracker {
    var mutationEpoch: nat
    var persistedEpoch: nat
    var process: State

    ghost predicate Valid()
      reads this
    {
      Consistent(process) && mutationEpoch == |process.marked| && persistedEpoch == process.persisted
    }

    constructor (restored: set<nat>)
      ensures Valid() && Guarded(process) && process == Started(true, restored)
    {
      mutationEpoch, persistedEpoch, process := 0, 0, Started(true, restored);
      new;
      StartedIsGuarded(restored);
    }

    /** One step of any thread. */
    method Do(a: Action)
      requires Valid() && Enabled(process, a)
      modifies this
      ensures Valid() && process == Step(old(process), a)
      ensures old(Guarded(process)) ==> Guarded(process)
    {
      StepIsConsistent(process, a);
      if Guarded(process) { StepIsGuarded(process, a); }
      process := Step(process, a);
      mutationEpoch, persistedEpoch := |process.marked|, process.persisted;
    }

    method MarkMutation(id: nat)
      requires Valid() && Enabled(process, Mark(id))
      modifies this
      ensures Valid() && process == Step(old(process), Mark(id)) && mutationEpoch == old(mutationEpoch) + 1
      ensures old(Guarded(process)) ==> Guarded(process)
    {
      StepIsConsistent(process, Mark(id));
      if Guarded(process) { StepIsGuarded(process, Mark(id)); }
      mutationEpoch := mutationEpoch + 1;
      process := Step(process, Mark(id));
    }

    /** Whatever other threads do before this one goes on. */
    method Interference(saver: Option<nat>, check: Option<nat>) returns (ghost steps: seq<Action>)
      requires Valid()
      modifies this
      ensures Valid() && Others(old(process), process, saver, check, steps)
      ensures old(Guarded(process)) ==> Guarded(process)
    {
      hide Guarded, Consistent, Step, Enabled;
      steps := [];
      var count: nat := *;
      while count > 0
        invariant Valid() && Others(old(process), process, saver, check, steps)
        invariant old(Guarded(process)) ==> Guarded(process)
      {
        var a: Action := *;
        if Enabled(process, a) && !Mine(a, saver, check) {
          RunLast(old(process), steps, a);
          Do(a);
          steps := steps + [a];
        }
        count := count - 1;
      }
    }

    method CaptureSaveEpoch(w: nat) returns (epoch: nat)
      requires Valid() && Enabled(process, Capture(w))
      modifies this
      ensures Valid() && process == Step(old(process), Capture(w)) && epoch == mutationEpoch == old(mutationEpoch)
      ensures old(Guarded(process)) ==> Guarded(process)
    {
      epoch := mutationEpoch;
      Do(Capture(w));
    }

    /** Two atomic reads, the mutation epoch first. Where saves hold the mutex, false means that every mutation marked
        before the call is in the state file. */
    method RequiresSave(r: nat) returns (dirty: bool)
      requires Valid() && Enabled(process, BeginCheck(r))
      modifies this
      ensures Valid()
      ensures !dirty <==> persistedEpoch == old(mutationEpoch)
      ensures old(Guarded(process)) && !dirty ==> forall id :: id in old(process.marked) ==> id in process.disk
    {
      hide Guarded, Consistent, Step, Final, IsRun;
      ghost var s := process;
      var mutation := mutationEpoch;
      CheckBegins(process, r);
      Do(BeginCheck(r));
      ghost var steps := Interference(None, Some(r));
      NoneEndsTheCheck(steps, r);
      CheckRemembers(Step(s, BeginCheck(r)), steps, r);
      if Guarded(s) { NoMutationIsLost(s, r, steps); }
      var persisted := persistedEpoch;
      dirty := mutation != persisted;
      CheckEnds(process, r);
      Do(EndCheck(r));
    }

    /** The compare-and-set loop: it ends against any interference, having published at least `epoch`. */
    method MarkPersisted(w: nat, epoch: nat)
      requires Valid() && w in process.savers && process.savers[w] == Publishing(epoch)
      modifies this
      ensures Valid() && w !in process.savers && persistedEpoch >= epoch
      ensures old(process.marked) <= process.marked
      ensures old(Guarded(process)) ==> Guarded(process) && process.disk == old(process.disk)
    {
      hide Guarded, Others;
      ghost var s := process;
      while true
        invariant Valid() && w in process.savers && process.savers[w] == Publishing(epoch)
        invariant s.marked <= process.marked
        invariant Guarded(s) ==> Guarded(process) && process.disk == s.disk
        decreases epoch - persistedEpoch
      {
        var current := persistedEpoch;
        PublishingStep(process, w);
        Do(ReadPersisted(w));
        if current >= epoch { return; }
        ghost var reading := process;
        ghost var steps := Interference(Some(w), None);
        OthersLeaveMine(reading, process, w, None, steps);
        PublishingStep(process, w);
        Do(CompareAndSet(w));
        if w !in process.savers { return; }
      }
    }

    /** One save under the mutex. Saved means that every mutation marked before the call is in the state file when it
        returns, and acknowledged; not saved means the file was left alone. */
    method SaveSnapshot(w: nat, works: bool) returns (saved: bool)
      requires Valid() && Guarded(process) && Enabled(process, Capture(w))
      modifies this
      ensures Valid() && Guarded(process) && saved == works && w !in process.savers
      ensures saved ==> persistedEpoch >= old(mutationEpoch)
      ensures saved ==> forall id :: id in old(process.marked) ==> id in process.disk
      ensures !saved ==> process.disk == old(process.disk) && persistedEpoch == old(persistedEpoch)
    {
      hide Guarded, Others;
      ghost var s := process;
      var epoch := CaptureSaveEpoch(w);
      ghost var captured := process;
      ghost var steps := Interference(Some(w), None);
      OthersLeaveMine(captured, process, w, None, steps);
      if !works {
        Do(Fail(w));
        return false;
      }
      MarkedAreApplied(process);
      Do(Snap(w));
      ghost var snapped := process;
      ghost var more := Interference(Some(w), None);
      OthersLeaveMine(snapped, process, w, None, more);
      Do(Write(w));
      MarkPersisted(w, epoch);
      saved := true;
    }
  }

  lemma CheckBegins(s: State, r: nat)
    requires r !in s.checks
    ensures r in Step(s, BeginCheck(r)).checks && Step(s, BeginCheck(r)).checks[r] == |s.marked|
  {
  }

  lemma CheckEnds(s: State, r: nat)
    requires r in s.checks
    ensures var t := Step(s, EndCheck(r)); t.persisted == s.persisted && t.disk == s.disk
  {
  }

  lemma NoneEndsTheCheck(steps: seq<Action>, r: nat)
    requires forall i :: 0 <= i < |steps| ==> !Mine(steps[i], None, Some(r))
    ensures EndCheck(r) !in steps
  {
  }

  lemma PublishingStep(s: State, w: nat)
    requires Consistent(s) && w in s.savers
    ensures s.savers[w].Comparing? ==> s.savers[w].current < s.savers[w].epoch && s.savers[w].current <= s.persisted
  {
    assert GoodSaver(s, w);
  }

  lemma MarkedAreApplied(s: State)
    requires Guarded(s)
    ensures forall id :: id in s.marked ==> id in s.applied
  {
  }
}
