/** The batched drain of transport events: a pure planner between bounded polls, equal to one long poll. */
module Drain {
  import opened Domain
  import opened CoreState
  import opened CoreInvariant
  import opened CoreDelivery
  import opened Session
  import opened Coordinator

  const MAX_EVENTS_PER_DRAIN_BATCH: nat := 128
  const MAX_DRAIN_BATCHES_PER_CYCLE: nat := 4
  const MAX_EVENTS_PER_DRAIN_CYCLE: nat := 512

  datatype DrainStep = DrainStep(batchSize: nat, continueDraining: bool)

  function NextDrainStep(previousBatchSize: nat, batchesUsed: nat, eventsProcessed: nat): DrainStep {
    if batchesUsed >= MAX_DRAIN_BATCHES_PER_CYCLE then DrainStep(0, false)
    else if eventsProcessed >= MAX_EVENTS_PER_DRAIN_CYCLE then DrainStep(0, false)
    else if previousBatchSize < MAX_EVENTS_PER_DRAIN_BATCH then DrainStep(0, false)
    else DrainStep(Least(MAX_EVENTS_PER_DRAIN_BATCH, MAX_EVENTS_PER_DRAIN_CYCLE - eventsProcessed), true)
  }

  /** Another batch is asked for exactly while the last was full and both budgets last; never beyond the budget. */
  lemma WhatIsAskedNext(previousBatchSize: nat, batchesUsed: nat, eventsProcessed: nat)
    ensures var step := NextDrainStep(previousBatchSize, batchesUsed, eventsProcessed);
            && (step.continueDraining <==> previousBatchSize >= 128 && batchesUsed < 4 && eventsProcessed < 512)
            && (!step.continueDraining ==> step.batchSize == 0)
            && (step.continueDraining && eventsProcessed <= 384 ==> step.batchSize == 128)
            && (step.continueDraining && eventsProcessed > 384 ==> step.batchSize + eventsProcessed == 512)
  {
  }

  function Sum(xs: seq<nat>): nat {
    if xs == [] then 0 else Sum(xs[..|xs| - 1]) + xs[|xs| - 1]
  }

  /** The planner's decision after polls that returned `answers`. */
  function Decision(answers: seq<nat>): DrainStep {
    NextDrainStep(if answers == [] then MAX_EVENTS_PER_DRAIN_BATCH else answers[|answers| - 1], |answers|, Sum(answers))
  }

  /** A cycle the planner allows: every poll was asked for, and returned at most what was asked, whatever arrived in
      the meantime. */
  predicate Cycle(answers: seq<nat>) {
    answers == [] || (
      var before := answers[..|answers| - 1];
      && Cycle(before)
      && Decision(before).continueDraining
      && answers[|answers| - 1] <= Decision(before).batchSize)
  }

  /** In every cycle there are at most four polls, all but the last are full, and the per-cycle budget never shrinks
      a request. */
  lemma {:induction false} ClampNeverShrinksABatch(answers: seq<nat>)
    requires Cycle(answers)
    ensures |answers| <= 4 && Sum(answers) <= 128 * |answers|
    ensures Decision(answers).continueDraining ==>
              Decision(answers).batchSize == 128 && Sum(answers) == 128 * |answers|
    ensures Decision(answers).continueDraining <==>
              |answers| < 4 && forall i :: 0 <= i < |answers| ==> answers[i] == 128
  {
    if answers != [] {
      ClampNeverShrinksABatch(answers[..|answers| - 1]);
    }
  }

  /** With nothing arriving, at most four polls leave the core as one fold over the first 512 queued events. */
  method DrainTransportEvents(coordinator: TransportCoordinator) returns (eventsProcessed: nat, polls: nat)
    requires coordinator.Valid()
    modifies coordinator.core, coordinator.transport`queue, coordinator.transport`workers
    ensures coordinator.Valid() && (old(coordinator.core.Valid()) ==> coordinator.core.Valid())
    ensures eventsProcessed == Least(|old(coordinator.transport.queue)|, 512)
    ensures coordinator.transport.queue == old(coordinator.transport.queue)[eventsProcessed..]
    ensures Unambiguous(old(coordinator.core.Model())) ==>
              coordinator.State() == Exec(old(coordinator.State()), PollTransport(eventsProcessed))
    ensures polls == Least(|old(coordinator.transport.queue)| / 128 + 1, 4)
  {
    hide Inv, Numbered, Exec, Unambiguous;
    ghost var s := coordinator.State();
    ghost var n := |s.queue|;
    var batchesUsed, previousBatchSize := 0, MAX_EVENTS_PER_DRAIN_BATCH;
    eventsProcessed := 0;
    PollNone(s);
    while true
      invariant coordinator.core == old(coordinator.core) && coordinator.Valid()
      invariant old(coordinator.core.Valid()) ==> coordinator.core.Valid()
      invariant batchesUsed <= MAX_DRAIN_BATCHES_PER_CYCLE
      invariant eventsProcessed == Least(n, MAX_EVENTS_PER_DRAIN_BATCH * batchesUsed)
      invariant batchesUsed > 0 ==> MAX_EVENTS_PER_DRAIN_BATCH * (batchesUsed - 1) <= n
      invariant batchesUsed > 0 ==>
                  eventsProcessed == MAX_EVENTS_PER_DRAIN_BATCH * (batchesUsed - 1) + previousBatchSize
      invariant batchesUsed == 0 ==> previousBatchSize == MAX_EVENTS_PER_DRAIN_BATCH
      invariant coordinator.transport.queue == s.queue[eventsProcessed..]
      invariant Unambiguous(s.core) ==>
                  Unambiguous(coordinator.core.Model())
                  && coordinator.State() == Exec(s, PollTransport(eventsProcessed))
      decreases MAX_DRAIN_BATCHES_PER_CYCLE - batchesUsed
    {
      var step := NextDrainStep(previousBatchSize, batchesUsed, eventsProcessed);
      if !step.continueDraining { break; }
      assert step.batchSize == MAX_EVENTS_PER_DRAIN_BATCH;
      var batch := coordinator.PollTransportEvents(step.batchSize);
      PollsCompose(s, eventsProcessed, batch);
      PollLeaves(s, eventsProcessed + batch);
      eventsProcessed := eventsProcessed + batch;
      batchesUsed := batchesUsed + 1;
      previousBatchSize := batch;
    }
    polls := batchesUsed;
  }

  /** An event that fails to apply leaves the fold as if it had never been queued. */
  lemma FailingEventsAreNoOps(c: Core, before: seq<TransportEvent>, e: TransportEvent, after: seq<TransportEvent>)
    requires RunOps(c, EventOps(before)).ApplyTransportEvent(e).result.Err?
    ensures RunOps(c, EventOps(before + [e] + after)) == RunOps(c, EventOps(before + after))
  {
    hide Perform, Core.ApplyTransportEvent;
    var d := RunOps(c, EventOps(before));
    EventOpsAppend(before + [e], after);
    EventOpsAppend(before, [e]);
    EventOpsAppend(before, after);
    RunOpsAppend(c, EventOps(before + [e]), EventOps(after));
    RunOpsAppend(c, EventOps(before), EventOps([e]));
    RunOpsAppend(c, EventOps(before), EventOps(after));
    RefusedEvent(d, e);
    RunOne(d, OpTransportEvent(e));
    assert EventOps([e]) == [OpTransportEvent(e)] by {
      assert [e][1..] == [];
    }
  }

  lemma RefusedEvent(c: Core, e: TransportEvent)
    requires c.ApplyTransportEvent(e).result.Err?
    ensures Perform(c, OpTransportEvent(e)).core == c
  {
    hide Core.ApplyTransportEvent;
    RefusedOpChangesNothing(c, OpTransportEvent(e));
  }
}
