/** Which plans the coordinator saves (src/dist.cpp, the identities kept for the store): every
    accepted publication adds its identity to a list, and what is saved follows that list. */
module Persisting {
  import opened Wrappers
  import opened Counting
  import opened ReverseIndex
  import opened Runtime

  /** The retained plans behind a list of identities, in its order. */
  ghost function Saved(ids: seq<nat>, retained: map<nat, RetainedPlan>): seq<PathPlan> {
    if ids == [] then []
    else
      var last := ids[|ids| - 1];
      Saved(ids[..|ids| - 1], retained) + (if last in retained then [retained[last].plan] else [])
  }

  ghost function IdsOf(plans: seq<PathPlan>): seq<nat> {
    seq(|plans|, i requires 0 <= i < |plans| => plans[i].id)
  }

  ghost predicate KeyedById(retained: map<nat, RetainedPlan>) {
    forall key: nat :: key in retained ==> retained[key].plan.id == key
  }

  class PlanKeeper {
    const runtime: PlannerRuntime
    var retainedIds: seq<nat>

    constructor (runtime: PlannerRuntime)
      ensures this.runtime == runtime && retainedIds == []
    {
      this.runtime := runtime;
      retainedIds := [];
    }

    /** An accepted publication. */
    method Accept(plan: PathPlan) returns (ok: bool)
      requires runtime.Valid() && (plan.id in runtime.retained ==> SameDependencies(runtime.retained[plan.id].plan, plan))
      modifies this`retainedIds, runtime
      ensures runtime.Valid() && (ok <==> plan.id != 0)
      ensures retainedIds == if ok then old(retainedIds) + [plan.id] else old(retainedIds)
      ensures ok ==> plan.id in runtime.retained && runtime.retained[plan.id].plan == plan
    {
      hide PlannerRuntime.Valid, SameDependencies, Newest, Only;
      ok := runtime.Retain(plan);
      if ok {
        retainedIds := retainedIds + [plan.id];
      }
    }

    /** The plans that are saved. */
    method Collect() returns (plans: seq<PathPlan>)
      ensures plans == Saved(retainedIds, runtime.retained)
    {
      plans := [];
      for i := 0 to |retainedIds|
        invariant plans == Saved(retainedIds[..i], runtime.retained)
      {
        assert retainedIds[..i + 1][..i] == retainedIds[..i];
        if retainedIds[i] in runtime.retained {
          plans := plans + [runtime.retained[retainedIds[i]].plan];
        }
      }
      assert retainedIds[..|retainedIds|] == retainedIds;
    }
  }

  /** An identity is saved exactly when it is on the list and still retained. */
  lemma {:induction false} SavedIds(ids: seq<nat>, retained: map<nat, RetainedPlan>)
    requires KeyedById(retained)
    ensures forall id: nat :: id in IdsOf(Saved(ids, retained)) <==> id in ids && id in retained
  {
    if ids != [] {
      var front, last := ids[..|ids| - 1], ids[|ids| - 1];
      SavedIds(front, retained);
      assert ids == front + [last];
      var plans := Saved(front, retained);
      assert last in retained ==> IdsOf(Saved(ids, retained)) == IdsOf(plans) + [last];
      assert last !in retained ==> IdsOf(Saved(ids, retained)) == IdsOf(plans);
    }
  }

  /** No plan is saved twice exactly when no identity that is still retained is on the list twice. */
  lemma {:induction false} SavedOnce(ids: seq<nat>, retained: map<nat, RetainedPlan>)
    requires KeyedById(retained)
    ensures Distinct(IdsOf(Saved(ids, retained))) <==> forall i, j :: 0 <= i < j < |ids| && ids[i] == ids[j] ==> ids[i] !in retained
  {
    if ids != [] {
      var front, last := ids[..|ids| - 1], ids[|ids| - 1];
      SavedOnce(front, retained);
      SavedIds(front, retained);
      var before, after := IdsOf(Saved(front, retained)), IdsOf(Saved(ids, retained));
      assert last in retained ==> after == before + [last];
      assert last !in retained ==> after == before;
      DistinctMore(before, last);
      FrontPairs(ids, retained);
    }
  }

  lemma DistinctMore(s: seq<nat>, x: nat)
    ensures Distinct(s + [x]) <==> Distinct(s) && x !in s
  {
    var t := s + [x];
    assert forall i :: 0 <= i < |s| ==> t[i] == s[i];
    assert t[|s|] == x;
    if x in s {
      var i :| 0 <= i < |s| && s[i] == x;
      assert t[i] == t[|s|];
    }
  }

  lemma FrontPairs(ids: seq<nat>, retained: map<nat, RetainedPlan>)
    requires ids != []
    ensures (forall i, j :: 0 <= i < j < |ids| && ids[i] == ids[j] ==> ids[i] !in retained) <==>
      var front, last := ids[..|ids| - 1], ids[|ids| - 1];
      (forall i, j :: 0 <= i < j < |front| && front[i] == front[j] ==> front[i] !in retained) && !(last in front && last in retained)
  {
    var front, last := ids[..|ids| - 1], ids[|ids| - 1];
    if last in front {
      var i :| 0 <= i < |front| && front[i] == last;
      assert ids[i] == ids[|ids| - 1];
    }
    assert forall i, j :: 0 <= i < j < |front| ==> ids[i] == front[i] && ids[j] == front[j];
  }

  /** A plan accepted again while it is retained is kept once and saved twice. */
  method AcceptedTwice(keeper: PlanKeeper, plan: PathPlan) returns (plans: seq<PathPlan>)
    requires keeper.runtime.Valid() && plan.id != 0
    requires plan.id in keeper.runtime.retained ==> SameDependencies(keeper.runtime.retained[plan.id].plan, plan)
    modifies keeper, keeper.runtime
    ensures keeper.retainedIds == old(keeper.retainedIds) + [plan.id, plan.id]
    ensures !Distinct(IdsOf(plans))
  {
    hide PlannerRuntime.Valid, Saved, KeyedById, Distinct;
    var first := keeper.Accept(plan);
    SameItself(plan);
    var second := keeper.Accept(plan);
    plans := keeper.Collect();
    Keyed(keeper.runtime);
    SavedOnce(keeper.retainedIds, keeper.runtime.retained);
    var n := |keeper.retainedIds|;
    assert keeper.retainedIds[n - 2] == keeper.retainedIds[n - 1] == plan.id;
  }

  lemma Keyed(runtime: PlannerRuntime)
    requires runtime.Valid()
    ensures KeyedById(runtime.retained)
  {
    hide IndexOk;
  }

  lemma SameItself(plan: PathPlan)
    ensures SameDependencies(plan, plan)
  {
  }
}
