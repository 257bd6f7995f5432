/** Compare-before-publish over every interleaving of a planning call with the other locked sections
    of the runtime (src/planner.cpp, Plan, PublishSnapshot, ApplyInvalidation, AdvanceEpoch). */
module Watermark {
  import opened Wrappers
  import opened Values
  import opened View
  import opened ReverseIndex
  import opened Runtime

  /** The steps that count: publications, invalidations and accepted epoch advances. */
  predicate Changes(m: Mark, step: Step) {
    match step
    case Publish(_) => true
    case Invalidate => true
    case Advance(epoch) => epoch > m.epoch
    case Quiet => false
  }

  function Run(m: Mark, steps: seq<Step>): Mark {
    if steps == [] then m else After(Run(m, steps[..|steps| - 1]), steps[|steps| - 1])
  }

  function ChangeCount(m: Mark, steps: seq<Step>): nat {
    if steps == [] then 0
    else ChangeCount(m, steps[..|steps| - 1]) + (if Changes(Run(m, steps[..|steps| - 1]), steps[|steps| - 1]) then 1 else 0)
  }

  /** The watermark counts the changes, modulo 2^64. */
  lemma {:induction false} SequenceCountsChanges(m: Mark, steps: seq<Step>)
    requires m.sequence < U64_RANGE
    ensures Run(m, steps).sequence == (m.sequence + ChangeCount(m, steps)) % U64_RANGE
  {
    if steps != [] {
      SequenceCountsChanges(m, steps[..|steps| - 1]);
    }
  }

  lemma {:induction false} NoChangeNoMove(m: Mark, steps: seq<Step>)
    requires ChangeCount(m, steps) == 0
    ensures Run(m, steps) == m
  {
    if steps != [] {
      NoChangeNoMove(m, steps[..|steps| - 1]);
    }
  }

  /** The comparison passes exactly when nothing was published, invalidated or advanced since the
      capture, as long as the 64-bit watermark has not come round. */
  lemma ComparisonIsExact(m: Mark, steps: seq<Step>, captured: nat)
    requires m.sequence < U64_RANGE && m.snapshot == Some(captured) && ChangeCount(m, steps) < U64_RANGE
    ensures Unmoved(Run(m, steps), m.sequence, captured) <==> ChangeCount(m, steps) == 0
  {
    SequenceCountsChanges(m, steps);
    if ChangeCount(m, steps) == 0 {
      NoChangeNoMove(m, steps);
    }
  }

  /** Without the wrap-around bound: it passes exactly when the watermark came round as often as it
      moved and the captured snapshot, or none, is published. */
  lemma ComparisonModuloWrap(m: Mark, steps: seq<Step>, captured: nat)
    requires m.sequence < U64_RANGE
    ensures Unmoved(Run(m, steps), m.sequence, captured) <==>
      ChangeCount(m, steps) % U64_RANGE == 0 && Run(m, steps).snapshot in {None, Some(captured)}
  {
    hide Run, ChangeCount;
    SequenceCountsChanges(m, steps);
    ComesRound(m.sequence, ChangeCount(m, steps));
  }

  lemma ComesRound(x: nat, c: nat)
    requires x < U64_RANGE
    ensures (x + c) % U64_RANGE == x <==> c % U64_RANGE == 0
  {
    var q, r := c / U64_RANGE, c % U64_RANGE;
    assert x + c == U64_RANGE * q + (x + r);
    if x + r >= U64_RANGE {
      assert x + c == U64_RANGE * (q + 1) + (x + r - U64_RANGE);
    }
  }

  lemma {:induction false} InvalidationsCount(m: Mark, n: nat)
    ensures ChangeCount(m, seq(n, i => Invalidate)) == n && Run(m, seq(n, i => Invalidate)).snapshot == m.snapshot
  {
    if n > 0 {
      InvalidationsCount(m, n - 1);
      assert seq(n, i => Invalidate)[..n - 1] == seq(n - 1, i => Invalidate);
    }
  }

  /** After exactly 2^64 invalidations the comparison passes as if nothing had changed. */
  lemma WrapHidesChanges(m: Mark, captured: nat)
    requires m.sequence < U64_RANGE && m.snapshot == Some(captured)
    ensures var steps := seq(U64_RANGE, i => Invalidate);
            ChangeCount(m, steps) == U64_RANGE && Unmoved(Run(m, steps), m.sequence, captured)
  {
    hide Run, ChangeCount;
    var steps := seq(U64_RANGE, i => Invalidate);
    InvalidationsCount(m, U64_RANGE);
    ComparisonModuloWrap(m, steps, captured);
  }

  lemma {:induction false} RunConcat(m: Mark, x: seq<Step>, y: seq<Step>)
    ensures Run(m, x + y) == Run(Run(m, x), y)
    ensures ChangeCount(m, x + y) == ChangeCount(m, x) + ChangeCount(Run(m, x), y)
    decreases |y|
  {
    if y == [] {
      assert x + y == x;
    } else {
      RunConcat(m, x, y[..|y| - 1]);
      assert (x + y)[..|x + y| - 1] == x + y[..|y| - 1];
    }
  }

  /** Once a change has passed a captured sequence, the watermark does not come back to it. */
  lemma PassedForGood(m: Mark, x: seq<Step>, y: seq<Step>)
    requires m.sequence < U64_RANGE && 0 < ChangeCount(m, x) && ChangeCount(m, x + y) < U64_RANGE
    ensures Run(m, x + y).sequence != m.sequence
  {
    RunConcat(m, x, y);
    SequenceCountsChanges(m, x + y);
  }

  datatype Call = CallPublish(snapshot: Option<Published>) | CallInvalidate(notice: Notice)
    | CallAdvance(epoch: nat, conservative: bool) | CallRetain(plan: PathPlan)

  function StepOf(call: Call): Step {
    match call
    case CallPublish(s) => Publish(s)
    case CallInvalidate(_) => Invalidate
    case CallAdvance(epoch, _) => Advance(epoch)
    case CallRetain(_) => Quiet
  }

  function StepsOf(calls: seq<Call>): seq<Step> {
    seq(|calls|, i requires 0 <= i < |calls| => StepOf(calls[i]))
  }

  /** Equal plan identities mean equal dependencies: the identity is a digest of the plan. */
  ghost predicate Known(owner: map<nat, PathPlan>, plan: PathPlan) {
    plan.id in owner && SameDependencies(owner[plan.id], plan)
  }

  ghost predicate AllKnown(owner: map<nat, PathPlan>, retained: map<nat, RetainedPlan>) {
    forall key: nat :: key in retained ==> retained[key].plan.id == key && Known(owner, retained[key].plan)
  }

  ghost predicate CallsKnown(owner: map<nat, PathPlan>, calls: seq<Call>) {
    forall i :: 0 <= i < |calls| && calls[i].CallRetain? ==> Known(owner, calls[i].plan)
  }

  /** A plan that is kept, if it is, under a mark that says it has to be revalidated or is retired. */
  ghost predicate Doubted(retained: map<nat, RetainedPlan>, id: nat) {
    id in retained ==> retained[id].currentness in {RevalidationRequired, Currentness.Retired}
  }

  /** The call keeps a plan under this identity that was proven current. */
  predicate Vouches(call: Call, id: nat) {
    call.CallRetain? && call.plan.id == id && call.plan.currentnessProven
  }

  /** Only a proven plan under the same identity ends a doubt. */
  ghost predicate DoubtStays(before: map<nat, RetainedPlan>, after: map<nat, RetainedPlan>, calls: seq<Call>) {
    forall id: nat :: Doubted(before, id) && (forall i :: 0 <= i < |calls| ==> !Vouches(calls[i], id)) ==> Doubted(after, id)
  }

  method Perform(rt: PlannerRuntime, call: Call, ghost owner: map<nat, PathPlan>)
    requires rt.Valid() && AllKnown(owner, rt.retained) && (call.CallRetain? ==> Known(owner, call.plan))
    modifies rt
    ensures rt.Valid() && AllKnown(owner, rt.retained) && rt.Watermark() == After(old(rt.Watermark()), StepOf(call))
    ensures forall id: nat :: Doubted(old(rt.retained), id) && !Vouches(call, id) ==> Doubted(rt.retained, id)
    ensures call.CallRetain? && !call.plan.currentnessProven ==> Doubted(rt.retained, call.plan.id) || call.plan.id == 0
  {
    hide PlannerRuntime.Valid, SameDependencies, Meets, Gone;
    match call
    case CallPublish(s) =>
      rt.PublishSnapshot(s);
    case CallInvalidate(notice) =>
      var report := rt.ApplyInvalidation(notice);
    case CallAdvance(epoch, conservative) =>
      var ok := rt.AdvanceEpoch(epoch, conservative);
    case CallRetain(plan) =>
      if plan.id in rt.retained {
        SameOwner(owner[plan.id], rt.retained[plan.id].plan, plan);
      }
      var ok := rt.Retain(plan);
  }

  lemma SameOwner(owner: PathPlan, p: PathPlan, q: PathPlan)
    requires SameDependencies(owner, p) && SameDependencies(owner, q)
    ensures SameDependencies(p, q)
  {
    hide DependsOn;
  }

  method PerformAll(rt: PlannerRuntime, calls: seq<Call>, ghost owner: map<nat, PathPlan>)
    requires rt.Valid() && AllKnown(owner, rt.retained) && CallsKnown(owner, calls)
    modifies rt
    ensures rt.Valid() && AllKnown(owner, rt.retained) && rt.Watermark() == Run(old(rt.Watermark()), StepsOf(calls))
    ensures DoubtStays(old(rt.retained), rt.retained, calls)
  {
    hide PlannerRuntime.Valid, AllKnown, Known, After, StepOf, Doubted;
    ghost var start := rt.Watermark();
    for i := 0 to |calls|
      invariant rt.Valid() && AllKnown(owner, rt.retained) && rt.Watermark() == Run(start, StepsOf(calls[..i]))
      invariant forall id: nat :: Doubted(old(rt.retained), id) && (forall k :: 0 <= k < i ==> !Vouches(calls[k], id)) ==> Doubted(rt.retained, id)
    {
      Perform(rt, calls[i], owner);
      assert StepsOf(calls[..i + 1])[..i] == StepsOf(calls[..i]);
    }
    assert calls[..|calls|] == calls;
  }

  /** A planning call with any other calls running between its capture and its comparison: if a
      candidate comes out current, none of them changed the published state. */
  method PlanInterleaved(rt: PlannerRuntime, calls: seq<Call>, candidates: seq<Currentness>, ghost owner: map<nat, PathPlan>)
    returns (r: seq<Currentness>)
    requires rt.Valid() && AllKnown(owner, rt.retained) && CallsKnown(owner, calls)
    modifies rt
    ensures rt.Valid() && rt.Watermark() == Run(old(rt.Watermark()), StepsOf(calls)) && |r| == |candidates|
    ensures (exists i :: 0 <= i < |r| && r[i] == Current) && ChangeCount(old(rt.Watermark()), StepsOf(calls)) < U64_RANGE ==>
      ChangeCount(old(rt.Watermark()), StepsOf(calls)) == 0 && rt.Watermark() == old(rt.Watermark())
    ensures ChangeCount(old(rt.Watermark()), StepsOf(calls)) == 0 && old(rt.snapshot).Some? ==> r == candidates
  {
    hide AllKnown, Known, Run, ChangeCount, CallsKnown;
    ghost var m := rt.Watermark();
    SequenceBound(rt);
    var sequence, captured := rt.Capture();
    PerformAll(rt, calls, owner);
    if captured.None? {
      return seq(|candidates|, i => RevalidationRequired);
    }
    r := rt.ComparePublish(sequence, captured.value, candidates);
    if ChangeCount(m, StepsOf(calls)) < U64_RANGE {
      ComparisonIsExact(m, StepsOf(calls), captured.value.id);
      if ChangeCount(m, StepsOf(calls)) == 0 {
        NoChangeNoMove(m, StepsOf(calls));
      }
    }
  }

  lemma SequenceBound(rt: PlannerRuntime)
    requires rt.Valid()
    ensures rt.publishSequence < U64_RANGE
  {
  }

  /** A plan whose captured sequence has been passed is never again found current. */
  method StaysStale(rt: PlannerRuntime, plan: PathPlan, ghost m: Mark, ghost before: seq<Step>, calls: seq<Call>, ghost owner: map<nat, PathPlan>)
    returns (r: Currentness)
    requires rt.Valid() && AllKnown(owner, rt.retained) && CallsKnown(owner, calls)
    requires m.sequence < U64_RANGE && plan.evidence.publishSequence == m.sequence
    requires rt.Watermark() == Run(m, before) && ChangeCount(m, before) > 0
    requires ChangeCount(m, before + StepsOf(calls)) < U64_RANGE
    modifies rt
    ensures r != Current
  {
    hide AllKnown, Known, Run, ChangeCount, CallsKnown, PlannerRuntime.Valid;
    PerformAll(rt, calls, owner);
    RunConcat(m, before, StepsOf(calls));
    PassedForGood(m, before, StepsOf(calls));
    r := rt.CheckCurrentness(plan);
  }

  /** A plan that was kept without proof, such as one restored from the store, is not found current,
      whatever runs, until a proven plan is kept under its identity or it is evicted. */
  method NeverCurrentUnproven(rt: PlannerRuntime, plan: PathPlan, calls: seq<Call>, ghost owner: map<nat, PathPlan>) returns (r: Currentness)
    requires rt.Valid() && AllKnown(owner, rt.retained) && CallsKnown(owner, calls) && Known(owner, plan)
    requires plan.id != 0 && !plan.currentnessProven && forall i :: 0 <= i < |calls| && calls[i].CallRetain? && calls[i].plan.id == plan.id ==> !calls[i].plan.currentnessProven
    modifies rt
    ensures r == Current ==> plan.id !in rt.retained
  {
    hide PlannerRuntime.Valid, Run, CallsKnown, AllKnown, Known, Doubted;
    Perform(rt, CallRetain(plan), owner);
    PerformAll(rt, calls, owner);
    r := rt.CheckCurrentness(plan);
    DoubtedIsNotCurrent(rt.retained, plan.id);
  }

  lemma DoubtedIsNotCurrent(retained: map<nat, RetainedPlan>, id: nat)
    requires Doubted(retained, id)
    ensures id in retained ==> retained[id].currentness == RevalidationRequired || retained[id].currentness == Currentness.Retired
  {
  }
}
