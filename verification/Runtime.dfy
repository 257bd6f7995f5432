/** The planner runtime's locked state: publication watermark, retained plans, reverse index
    (src/planner.cpp, PlannerRuntime).  Every method is one section under the runtime's mutex. */
module Runtime {
  import opened Wrappers
  import opened Values
  import opened Counting
  import opened Sorting
  import opened View
  import opened Domains
  import opened Candidates
  import opened ReverseIndex

  datatype Currentness = Current | RevalidationRequired | StaleTopology | StaleLinkState | StalePortState
    | StaleCapability | StaleFailureDomain | StalePolicy | StaleEpoch | Retired

  /** Lower is more severe. */
  function Severity(c: Currentness): nat {
    match c
    case Retired => 0
    case StaleEpoch => 1
    case StaleTopology => 2
    case StaleLinkState => 3
    case StalePortState => 4
    case StaleCapability => 5
    case StaleFailureDomain => 6
    case StalePolicy => 7
    case RevalidationRequired => 8
    case Current => 9
  }

  function MoreSevere(a: Currentness, b: Currentness): Currentness {
    if Severity(a) <= Severity(b) then a else b
  }

  ghost predicate SameEvidence(g: Generations, h: Generations) {
    g.topology == h.topology && g.linkState == h.linkState && g.ports == h.ports && g.capabilities == h.capabilities &&
    g.failureDomains == h.failureDomains && g.epoch == h.epoch && g.policy == h.policy
  }

  /** The dimensions in which the evidence moved. */
  ghost function Stale(g: Generations, h: Generations): set<Currentness> {
    (if g.topology != h.topology then {StaleTopology} else {}) + (if g.linkState != h.linkState then {StaleLinkState} else {}) +
    (if g.ports != h.ports then {StalePortState} else {}) + (if g.capabilities != h.capabilities then {StaleCapability} else {}) +
    (if g.failureDomains != h.failureDomains then {StaleFailureDomain} else {}) + (if g.policy != h.policy then {StalePolicy} else {}) +
    (if g.epoch != h.epoch then {StaleEpoch} else {})
  }

  /** The verdict is the most severe of the findings, and Current without any. */
  ghost predicate WorstOf(verdict: Currentness, findings: set<Currentness>) {
    (verdict in findings || (verdict == Current && findings == {})) && forall c :: c in findings ==> Severity(verdict) <= Severity(c)
  }

  /** No two verdicts are equally severe, so the most severe finding is one. */
  lemma WorstIsOne(x: Currentness, y: Currentness, findings: set<Currentness>)
    requires WorstOf(x, findings) && WorstOf(y, findings)
    ensures x == y
  {
  }

  method ClassifyEvidence(prior: Generations, current: Generations) returns (worst: Currentness)
    ensures worst == Current <==> SameEvidence(prior, current)
    ensures WorstOf(worst, Stale(prior, current)) && worst != Retired && worst != RevalidationRequired
    ensures worst ==
      if prior.epoch != current.epoch then StaleEpoch else if prior.topology != current.topology then StaleTopology
      else if prior.linkState != current.linkState then StaleLinkState else if prior.ports != current.ports then StalePortState
      else if prior.capabilities != current.capabilities then StaleCapability else if prior.failureDomains != current.failureDomains then StaleFailureDomain
      else if prior.policy != current.policy then StalePolicy else Current
  {
    worst := Current;
    if prior.topology != current.topology { worst := MoreSevere(worst, StaleTopology); }
    if prior.linkState != current.linkState { worst := MoreSevere(worst, StaleLinkState); }
    if prior.ports != current.ports { worst := MoreSevere(worst, StalePortState); }
    if prior.capabilities != current.capabilities { worst := MoreSevere(worst, StaleCapability); }
    if prior.failureDomains != current.failureDomains { worst := MoreSevere(worst, StaleFailureDomain); }
    if prior.policy != current.policy { worst := MoreSevere(worst, StalePolicy); }
    if prior.epoch != current.epoch { worst := MoreSevere(worst, StaleEpoch); }
  }

  /** A published snapshot: its identity, its generations, the subjects it contains. */
  datatype Published = Published(id: nat, generations: Generations, subjects: set<nat>)

  datatype RetainedPlan = RetainedPlan(plan: PathPlan, currentness: Currentness)

  datatype Notice = Notice(nodes: seq<id16>, links: seq<id16>, ports: seq<id16>, capabilities: seq<id8>, failureDomains: seq<id8>, conservativeAll: bool)

  datatype Report = Report(affected: seq<nat>, marked: seq<nat>, retired: seq<nat>, conservative: bool, retainedPlans: nat)

  /** What publication, invalidation and epoch advance change of the watermark. */
  datatype Mark = Mark(sequence: nat, snapshot: Option<nat>, epoch: nat)

  datatype Step = Publish(snapshot: Option<Published>) | Invalidate | Advance(epoch: nat) | Quiet

  function Next(sequence: nat): nat {
    (sequence + 1) % U64_RANGE
  }

  function After(m: Mark, step: Step): Mark {
    match step
    case Publish(s) =>
      Mark(Next(m.sequence), if s.Some? then Some(s.value.id) else None, if s.Some? then s.value.generations.epoch else m.epoch)
    case Invalidate => m.(sequence := Next(m.sequence))
    case Advance(epoch) => if epoch <= m.epoch then m else m.(sequence := Next(m.sequence), epoch := epoch)
    case Quiet => m
  }

  ghost function PlansOf(retained: map<nat, RetainedPlan>): map<nat, PathPlan> {
    map key | key in retained :: retained[key].plan
  }

  /** The index agrees with the plans as far as it claims to. */
  ghost predicate IndexOk(index: Index, entries: nat, complete: bool, ceiling: nat, plans: map<nat, PathPlan>) {
    Sound(index, plans) && entries == |Entries(index)| <= ceiling && (complete ==> Complete(index, plans))
  }

  ghost predicate SameDependencies(p: PathPlan, q: PathPlan) {
    forall subject: nat :: DependsOn(p, subject) <==> DependsOn(q, subject)
  }

  /** Every retained plan is in the retention order exactly once. */
  ghost predicate OrderOk(retained: map<nat, RetainedPlan>, order: seq<nat>) {
    Distinct(order) && (forall key: nat :: key in order <==> key in retained) && forall key: nat :: key in retained ==> retained[key].plan.id == key
  }

  ghost predicate Notices(n: Notice, subject: nat) {
    (exists i :: 0 <= i < |n.nodes| && subject == ForNode(n.nodes[i])) ||
    (exists i :: 0 <= i < |n.links| && subject == ForLink(n.links[i])) ||
    (exists i :: 0 <= i < |n.ports| && subject == ForPort(n.ports[i]))
  }

  ghost predicate Meets(n: Notice, plan: PathPlan) {
    exists subject: nat :: Notices(n, subject) && DependsOn(plan, subject)
  }

  /** The plan runs over something the snapshot no longer has. */
  ghost predicate Gone(snapshot: Option<Published>, plan: PathPlan) {
    snapshot.Some? && exists subject: nat :: DependsOn(plan, subject) && subject !in snapshot.value.subjects
  }

  ghost function Verdict(snapshot: Option<Published>, plan: PathPlan): Currentness {
    if Gone(snapshot, plan) then Retired else RevalidationRequired
  }

  /** First in, first out: the newest plans below the limit. */
  function Newest(order: seq<nat>, limit: nat): seq<nat> {
    if limit == 0 then [] else if |order| < limit then order else order[|order| - (limit - 1)..]
  }

  ghost function Only(retained: map<nat, RetainedPlan>, keys: seq<nat>): map<nat, RetainedPlan> {
    map key | key in retained && key in keys :: retained[key]
  }

  class PlannerRuntime {
    const maxRetainedPlans: nat
    const maxReverseEntries: nat
    var snapshot: Option<Published>
    var publishSequence: nat
    var epoch: nat
    var retained: map<nat, RetainedPlan>
    var retentionOrder: seq<nat>
    var subjectIndex: Index
    var reverseEntries: nat
    var reverseIndexComplete: bool

    ghost predicate Valid()
      reads this
    {
      && publishSequence < U64_RANGE
      && OrderOk(retained, retentionOrder)
      && |retentionOrder| <= (if maxRetainedPlans == 0 then 1 else maxRetainedPlans)
      && IndexOk(subjectIndex, reverseEntries, reverseIndexComplete, maxReverseEntries, PlansOf(retained))
    }

    ghost function Watermark(): Mark
      reads this
    {
      Mark(publishSequence, if snapshot.Some? then Some(snapshot.value.id) else None, epoch)
    }

    constructor (maxRetainedPlans: nat, maxReverseEntries: nat, initial: Option<Published>)
      ensures Valid() && retained == map[] && publishSequence == 0 && snapshot == initial && reverseIndexComplete
      ensures this.maxRetainedPlans == maxRetainedPlans && this.maxReverseEntries == maxReverseEntries
      ensures epoch == if initial.Some? then initial.value.generations.epoch else 0
    {
      this.maxRetainedPlans := maxRetainedPlans;
      this.maxReverseEntries := maxReverseEntries;
      snapshot, publishSequence := initial, 0;
      epoch := if initial.Some? then initial.value.generations.epoch else 0;
      retained, retentionOrder, subjectIndex, reverseEntries, reverseIndexComplete := map[], [], map[], 0, true;
    }

    method PublishSnapshot(published: Option<Published>)
      requires Valid()
      modifies this`snapshot, this`publishSequence, this`epoch
      ensures Valid() && Watermark() == After(old(Watermark()), Publish(published)) && snapshot == published
    {
      hide IndexOk, OrderOk;
      snapshot := published;
      publishSequence := Next(publishSequence);
      if published.Some? {
        epoch := published.value.generations.epoch;
      }
    }

    method AdvanceEpoch(newEpoch: nat, conservativeRecovery: bool) returns (ok: bool)
      requires Valid()
      modifies this`publishSequence, this`epoch, this`retained
      ensures Valid() && Watermark() == After(old(Watermark()), Advance(newEpoch))
      ensures ok <==> newEpoch > old(epoch)
      ensures retained == if ok && conservativeRecovery then AllRevalidated(old(retained)) else old(retained)
      ensures retained.Keys == old(retained).Keys && forall key: nat :: key in retained ==> retained[key].plan == old(retained)[key].plan
      ensures forall key: nat :: key in retained ==> retained[key].currentness == if newEpoch > old(epoch) && conservativeRecovery then RevalidationRequired else old(retained)[key].currentness
    {
      hide IndexOk;
      if newEpoch <= epoch {
        return false;
      }
      epoch := newEpoch;
      publishSequence := Next(publishSequence);
      if conservativeRecovery {
        SamePlans(retained);
        retained := AllRevalidated(retained);
      }
      ok := true;
    }

    /** Removes the entries of a plan. */
    method UnindexPlan(plan: PathPlan, ghost plans: map<nat, PathPlan>)
      requires IndexOk(subjectIndex, reverseEntries, reverseIndexComplete, maxReverseEntries, plans)
      requires plan.id in plans && SameDependencies(plans[plan.id], plan)
      modifies this`subjectIndex, this`reverseEntries
      ensures IndexOk(subjectIndex, reverseEntries, reverseIndexComplete, maxReverseEntries, plans - {plan.id})
    {
      var subjects := CollectPlanDependencies(plan);
      hide Sound, Entries, Complete, DependsOn, SameDependencies, ReverseIndex.Lists;
      ghost var start := subjectIndex;
      for i := 0 to |subjects|
        invariant Sound(subjectIndex, plans) && reverseEntries == |Entries(subjectIndex)| <= maxReverseEntries
        invariant forall s: nat, k: nat :: Listed(subjectIndex, s, k) <==> Listed(start, s, k) && (k != plan.id || s !in subjects[..i])
      {
        assert subjects[..i + 1] == subjects[..i] + [subjects[i]];
        RemoveStep(subjectIndex, subjects[i], plan.id, plans);
        if subjects[i] !in subjectIndex {
          continue;
        }
        var before := |subjectIndex[subjects[i]]|;
        var kept := Drop(subjectIndex[subjects[i]], plan.id);
        RowDrop(subjectIndex, subjects[i], plan.id, plans);
        var removed := before - |kept|;
        subjectIndex := Remove(subjectIndex, subjects[i], plan.id);
        reverseEntries := SubtractSaturating(reverseEntries, removed);
      }
      assert subjects[..|subjects|] == subjects;
      Unlisted(start, subjectIndex, plan, plans, subjects);
      if reverseIndexComplete {
        StillComplete(start, subjectIndex, plan, plans, subjects);
      }
    }

    /** Adds the entries of a plan until the ceiling is reached. */
    method IndexPlan(plan: PathPlan, ghost plans: map<nat, PathPlan>)
      requires IndexOk(subjectIndex, reverseEntries, reverseIndexComplete, maxReverseEntries, plans) && plan.id !in plans
      modifies this`subjectIndex, this`reverseEntries, this`reverseIndexComplete
      ensures IndexOk(subjectIndex, reverseEntries, reverseIndexComplete, maxReverseEntries, plans[plan.id := plan])
      ensures reverseIndexComplete <==> old(reverseIndexComplete) && RoomFor(plans[plan.id := plan], maxReverseEntries)
    {
      var subjects := CollectPlanDependencies(plan);
      hide Sound, Entries, Complete, DependsOn, RoomFor;
      ghost var start := subjectIndex;
      ghost var more := plans[plan.id := plan];
      SoundMore(subjectIndex, plan, plans);
      for i := 0 to |subjects|
        invariant Sound(subjectIndex, more) && reverseEntries == |Entries(subjectIndex)| <= maxReverseEntries
        invariant forall s: nat, k: nat :: Listed(subjectIndex, s, k) <==> Listed(start, s, k) || (k == plan.id && s in subjects[..i])
        invariant reverseIndexComplete == old(reverseIndexComplete)
      {
        assert subjects[..i + 1] == subjects[..i] + [subjects[i]];
        if reverseEntries >= maxReverseEntries {
          reverseIndexComplete := false;
          StillLacks(start, plans, subjects[i], plan.id);
          assert subjects[i] !in subjects[..i] && subjects[i] in subjects;
          NoRoom(subjectIndex, more, maxReverseEntries, subjects[i], plan.id);
          return;
        }
        assert subjects[i] !in subjects[..i];
        assert subjects[i] in subjects && DependsOn(plan, subjects[i]);
        PushStep(subjectIndex, subjects[i], plan.id, more);
        subjectIndex := Push(subjectIndex, subjects[i], plan.id);
        reverseEntries := reverseEntries + 1;
      }
      assert subjects[..|subjects|] == subjects;
      if reverseIndexComplete {
        NowComplete(start, subjectIndex, plan, plans, subjects);
        CompleteHasRoom(subjectIndex, more, maxReverseEntries);
      }
    }

    /** Keeps a plan; the oldest plans make room. */
    method Retain(plan: PathPlan) returns (ok: bool)
      requires Valid()
      requires plan.id in retained ==> SameDependencies(retained[plan.id].plan, plan)
      modifies this`retained, this`retentionOrder, this`subjectIndex, this`reverseEntries, this`reverseIndexComplete
      ensures Valid() && (ok <==> plan.id != 0)
      ensures !ok ==> retained == old(retained) && retentionOrder == old(retentionOrder) && reverseIndexComplete == old(reverseIndexComplete)
      ensures ok ==> (reverseIndexComplete <==> old(reverseIndexComplete) && RoomFor(PlansOf(retained), maxReverseEntries))
      ensures ok ==> plan.id in retained && retained[plan.id].plan == plan && retained[plan.id].currentness == if plan.currentnessProven then Current else RevalidationRequired
      ensures forall key: nat :: key in retained && key != plan.id ==> key in old(retained) && retained[key] == old(retained)[key]
      ensures ok && plan.id in old(retained) ==> retentionOrder == old(retentionOrder) && retained == old(retained)[plan.id := Initial(plan)]
      ensures ok && plan.id !in old(retained) ==>
        && retentionOrder == Newest(old(retentionOrder), maxRetainedPlans) + [plan.id]
        && retained == Only(old(retained), Newest(old(retentionOrder), maxRetainedPlans))[plan.id := Initial(plan)]
    {
      hide IndexOk, SameDependencies, OrderOk, RoomFor;
      if plan.id == 0 {
        return false;
      }
      if plan.id in retained {
        Overwrite(retained, retentionOrder, plan);
        OverwriteIndex(subjectIndex, reverseEntries, reverseIndexComplete, maxReverseEntries, PlansOf(retained), plan);
        assert PlansOf(retained[plan.id := Initial(plan)]) == PlansOf(retained)[plan.id := plan];
        IndexHasRoom(subjectIndex, reverseEntries, reverseIndexComplete, maxReverseEntries, PlansOf(retained[plan.id := Initial(plan)]));
        retained := retained[plan.id := Initial(plan)];
        return true;
      }
      MakeRoom();
      Admit(retained, retentionOrder, plan);
      IndexPlan(plan, PlansOf(retained));
      assert PlansOf(retained[plan.id := Initial(plan)]) == PlansOf(retained)[plan.id := plan];
      retained := retained[plan.id := Initial(plan)];
      retentionOrder := retentionOrder + [plan.id];
      ok := true;
    }

    /** Evicts the oldest plans until one more fits. */
    method MakeRoom()
      requires Valid()
      modifies this`retained, this`retentionOrder, this`subjectIndex, this`reverseEntries
      ensures Valid()
      ensures retentionOrder == Newest(old(retentionOrder), maxRetainedPlans)
      ensures retained == Only(old(retained), retentionOrder)
    {
      hide IndexOk, OrderOk, Only, PlansOf;
      ghost var all, order := retained, retentionOrder;
      OnlyAll(all, order);
      ghost var n := 0;
      RetainedCount(retained, retentionOrder);
      while |retained| >= maxRetainedPlans && |retentionOrder| > 0
        invariant Valid() && n <= |order| && retentionOrder == order[n..] && retained == Only(all, retentionOrder)
        invariant |retained| == |retentionOrder|
        invariant n == 0 || |order| - n + 1 >= maxRetainedPlans
        decreases |retentionOrder|
      {
        OnlyLess(all, retained, retentionOrder);
        EvictOldest();
        n := n + 1;
        RetainedCount(retained, retentionOrder);
      }
    }

    method EvictOldest()
      requires Valid() && |retentionOrder| > 0
      modifies this`retained, this`retentionOrder, this`subjectIndex, this`reverseEntries
      ensures Valid() && retentionOrder == old(retentionOrder)[1..] && retained == old(retained) - {old(retentionOrder)[0]}
    {
      hide IndexOk, OrderOk, PlansOf, SameDependencies;
      var victim := retentionOrder[0];
      Evict(retained, retentionOrder);
      UnindexPlan(retained[victim].plan, PlansOf(retained));
      PlansLess(retained, victim);
      retained := retained - {victim};
      retentionOrder := retentionOrder[1..];
    }

    /** The plans a notice reaches: all of them, or exactly those that depend on a subject it names. */
    method Affected(n: Notice) returns (keys: seq<nat>, conservative: bool)
      requires Valid()
      ensures StrictlyAscending(keys)
      ensures conservative <==> n.conservativeAll || n.capabilities != [] || n.failureDomains != [] || !reverseIndexComplete
      ensures forall key: nat :: key in keys <==> key in retained && (conservative || Meets(n, retained[key].plan))
    {
      hide IndexOk, OrderOk, Meets;
      conservative := n.conservativeAll || |n.capabilities| != 0 || |n.failureDomains| != 0 || !reverseIndexComplete;
      if conservative {
        RetainedListed(retained, retentionOrder);
        keys := SortUnique(retentionOrder);
      } else {
        var all: seq<nat> := [];
        for i := 0 to |n.nodes|
          invariant forall k: nat :: k in all <==> exists j :: 0 <= j < i && Listed(subjectIndex, ForNode(n.nodes[j]), k)
        {
          all := all + (if ForNode(n.nodes[i]) in subjectIndex then subjectIndex[ForNode(n.nodes[i])] else []);
        }
        ghost var nodes := all;
        for i := 0 to |n.links|
          invariant forall k: nat :: k in all <==> k in nodes || exists j :: 0 <= j < i && Listed(subjectIndex, ForLink(n.links[j]), k)
        {
          all := all + (if ForLink(n.links[i]) in subjectIndex then subjectIndex[ForLink(n.links[i])] else []);
        }
        ghost var links := all;
        for i := 0 to |n.ports|
          invariant forall k: nat :: k in all <==> k in links || exists j :: 0 <= j < i && Listed(subjectIndex, ForPort(n.ports[j]), k)
        {
          all := all + (if ForPort(n.ports[i]) in subjectIndex then subjectIndex[ForPort(n.ports[i])] else []);
        }
        CollectedIsScan(subjectIndex, reverseEntries, maxReverseEntries, PlansOf(retained), n, nodes, links, all);
        keys := SortUnique(all);
      }
    }

    method ApplyInvalidation(n: Notice) returns (report: Report)
      requires Valid()
      modifies this`publishSequence, this`retained
      ensures Valid() && Watermark() == After(old(Watermark()), Invalidate)
      ensures report.conservative <==> n.conservativeAll || n.capabilities != [] || n.failureDomains != [] || !reverseIndexComplete
      ensures StrictlyAscending(report.affected) && report.retainedPlans == |old(retained)|
      ensures forall key: nat :: key in report.affected <==> key in old(retained) && (report.conservative || Meets(n, old(retained)[key].plan))
      ensures retained == Revised(old(retained), snapshot, report.affected)
      ensures retained.Keys == old(retained).Keys && forall key: nat :: key in retained ==> retained[key].plan == old(retained)[key].plan
      ensures forall key: nat :: key in retained ==> retained[key].currentness == if key in report.retired then Retired else if key in report.marked then RevalidationRequired else old(retained)[key].currentness
      ensures forall key: nat :: key in report.retired <==> key in report.affected && Gone(snapshot, old(retained)[key].plan)
      ensures forall key: nat :: key in report.marked <==> key in report.affected && !Gone(snapshot, old(retained)[key].plan)
    {
      hide IndexOk, OrderOk, Meets, Gone;
      publishSequence := Next(publishSequence);
      var keys, conservative := Affected(n);
      var marked, retired := MarkAffected(keys);
      report := Report(keys, marked, retired, conservative, |retained|);
      assert |retained.Keys| == |old(retained).Keys|;
    }

    /** Marks the affected plans, retiring those whose subjects are gone. */
    method MarkAffected(keys: seq<nat>) returns (marked: seq<nat>, retired: seq<nat>)
      requires Valid() && StrictlyAscending(keys) && forall key: nat :: key in keys ==> key in retained
      modifies this`retained
      ensures Valid() && retained == Revised(old(retained), snapshot, keys) && retained.Keys == old(retained).Keys
      ensures forall key: nat :: key in retired <==> key in keys && Gone(snapshot, old(retained)[key].plan)
      ensures forall key: nat :: key in marked <==> key in keys && !Gone(snapshot, old(retained)[key].plan)
    {
      hide IndexOk, OrderOk, Gone;
      ghost var before := retained;
      marked, retired := [], [];
      NoneRevised(retained, snapshot);
      for i := 0 to |keys|
        invariant Valid() && retained == Revised(before, snapshot, keys[..i]) && retained.Keys == before.Keys
        invariant forall key: nat :: key in retired <==> key in keys[..i] && Gone(snapshot, before[key].plan)
        invariant forall key: nat :: key in marked <==> key in keys[..i] && !Gone(snapshot, before[key].plan)
      {
        assert keys[..i + 1] == keys[..i] + [keys[i]];
        var key := keys[i];
        assert key in keys && key in before && key !in keys[..i];
        assert retained[key] == before[key];
        var gone := IsGone(snapshot, retained[key].plan);
        Reassess(retained, retentionOrder, key, if gone then Retired else RevalidationRequired);
        retained := retained[key := RetainedPlan(retained[key].plan, if gone then Retired else RevalidationRequired)];
        if gone {
          retired := retired + [key];
        } else {
          marked := marked + [key];
        }
      }
      assert keys[..|keys|] == keys;
    }

    /** What a planning call captures before it starts. */
    method Capture() returns (sequence: nat, captured: Option<Published>)
      ensures sequence == publishSequence && captured == snapshot
    {
      sequence, captured := publishSequence, snapshot;
    }

    /** Compare before publish: candidates stay current only if nothing changed since the capture. */
    method ComparePublish(sequence: nat, captured: Published, candidates: seq<Currentness>) returns (r: seq<Currentness>)
      ensures |r| == |candidates|
      ensures Unmoved(Watermark(), sequence, captured.id) ==> r == candidates
      ensures !Unmoved(Watermark(), sequence, captured.id) ==> forall i :: 0 <= i < |r| ==> r[i] == RevalidationRequired
    {
      var changed := false;
      if publishSequence != sequence {
        changed := true;
      } else if snapshot.Some? && snapshot.value.id != captured.id {
        changed := true;
      }
      r := candidates;
      if changed {
        for i := 0 to |candidates|
          invariant |r| == |candidates| && forall k :: 0 <= k < i ==> r[k] == RevalidationRequired
        {
          r := r[i := RevalidationRequired];
        }
      }
    }

    /** Everything there is against a plan; without a snapshot little can be said. */
    ghost function Findings(plan: PathPlan): set<Currentness>
      reads this
    {
      (if plan.diagnostic || snapshot.None? then {RevalidationRequired} else {}) +
      if snapshot.None? then {} else
        (if Gone(snapshot, plan) then {Retired} else {}) +
        (if plan.id in retained && retained[plan.id].currentness in {Retired, RevalidationRequired} then {retained[plan.id].currentness} else {}) +
        (if plan.evidence.publishSequence != publishSequence then {RevalidationRequired} else {}) +
        Stale(plan.evidence.generations, snapshot.value.generations)
    }

    /** Whether a plan made earlier may still be used. */
    method CheckCurrentness(plan: PathPlan) returns (r: Currentness)
      requires Valid()
      ensures r == Current <==>
        && !plan.diagnostic && snapshot.Some? && !Gone(snapshot, plan)
        && (plan.id in retained ==> retained[plan.id].currentness != Retired && retained[plan.id].currentness != RevalidationRequired)
        && SameEvidence(plan.evidence.generations, snapshot.value.generations)
        && plan.evidence.publishSequence == publishSequence
      ensures r == Retired <==> snapshot.Some? && (Gone(snapshot, plan) || (plan.id in retained && retained[plan.id].currentness == Retired))
      ensures WorstOf(r, Findings(plan))
      ensures snapshot.Some? && r != Retired && plan.evidence.generations.epoch != snapshot.value.generations.epoch ==> r == StaleEpoch
      ensures snapshot.Some? && r != Retired && plan.evidence.generations.epoch == snapshot.value.generations.epoch && plan.evidence.generations.topology != snapshot.value.generations.topology ==> r == StaleTopology
    {
      hide IndexOk, OrderOk, Gone, SameEvidence, Stale;
      r := if plan.diagnostic then RevalidationRequired else Current;
      if snapshot.None? {
        r := MoreSevere(r, RevalidationRequired);
        return;
      }
      var gone := IsGone(snapshot, plan);
      if gone {
        return Retired;
      }
      if plan.id in retained {
        if retained[plan.id].currentness == Retired {
          return Retired;
        }
        if retained[plan.id].currentness == RevalidationRequired {
          r := MoreSevere(r, RevalidationRequired);
        }
      }
      var classified := ClassifyEvidence(plan.evidence.generations, snapshot.value.generations);
      if classified != Current {
        r := MoreSevere(r, classified);
      } else if plan.evidence.publishSequence != publishSequence && r == Current {
        r := RevalidationRequired;
      }
    }
  }

  function SubtractSaturating(x: nat, y: nat): nat {
    if y > x then 0 else x - y
  }

  function Initial(plan: PathPlan): RetainedPlan {
    RetainedPlan(plan, if plan.currentnessProven then Current else RevalidationRequired)
  }

  function AllRevalidated(retained: map<nat, RetainedPlan>): map<nat, RetainedPlan> {
    map key | key in retained :: RetainedPlan(retained[key].plan, RevalidationRequired)
  }

  ghost function Revised(retained: map<nat, RetainedPlan>, snapshot: Option<Published>, keys: seq<nat>): map<nat, RetainedPlan> {
    map key | key in retained :: if key in keys then RetainedPlan(retained[key].plan, Verdict(snapshot, retained[key].plan)) else retained[key]
  }

  /** The watermark still is where a planning call captured it. */
  predicate Unmoved(m: Mark, sequence: nat, captured: nat) {
    m.sequence == sequence && (m.snapshot.Some? ==> m.snapshot.value == captured)
  }

  method IsGone(snapshot: Option<Published>, plan: PathPlan) returns (gone: bool)
    ensures gone <==> Gone(snapshot, plan)
  {
    if snapshot.None? {
      return false;
    }
    var subjects := CollectPlanDependencies(plan);
    hide DependsOn;
    for i := 0 to |subjects|
      invariant forall k :: 0 <= k < i ==> subjects[k] in snapshot.value.subjects
    {
      assert subjects[i] in subjects;
      if subjects[i] !in snapshot.value.subjects {
        return true;
      }
    }
    gone := false;
  }

  lemma PlansLess(retained: map<nat, RetainedPlan>, key: nat)
    ensures PlansOf(retained - {key}) == PlansOf(retained) - {key}
  {
  }

  lemma SamePlans(retained: map<nat, RetainedPlan>)
    ensures PlansOf(AllRevalidated(retained)) == PlansOf(retained)
  {
  }

  lemma RowDrop(index: Index, subject: nat, key: nat, plans: map<nat, PathPlan>)
    requires Sound(index, plans) && subject in index
    ensures |Drop(index[subject], key)| == |index[subject]| - (if Listed(index, subject, key) then 1 else 0)
  {
    hide DependsOn;
    DropFacts(index[subject], key);
    assert RowSound(index[subject], subject, plans);
  }

  lemma Unlisted(start: Index, index: Index, plan: PathPlan, plans: map<nat, PathPlan>, subjects: seq<nat>)
    requires Sound(start, plans) && Sound(index, plans) && plan.id in plans && SameDependencies(plans[plan.id], plan) && ReverseIndex.Lists(subjects, plan)
    requires forall s: nat, k: nat :: Listed(index, s, k) <==> Listed(start, s, k) && (k != plan.id || s !in subjects)
    ensures Sound(index, plans - {plan.id})
  {
    hide DependsOn;
    forall s: nat | s in index ensures RowSound(index[s], s, plans - {plan.id}) {
      assert RowSound(index[s], s, plans);
      forall i | 0 <= i < |index[s]| ensures index[s][i] != plan.id {
        assert Listed(index, s, index[s][i]);
      }
    }
  }

  lemma StillComplete(start: Index, index: Index, plan: PathPlan, plans: map<nat, PathPlan>, subjects: seq<nat>)
    requires Complete(start, plans)
    requires forall s: nat, k: nat :: Listed(index, s, k) <==> Listed(start, s, k) && (k != plan.id || s !in subjects)
    ensures Complete(index, plans - {plan.id})
  {
    hide DependsOn, Listed;
  }

  lemma SoundMore(index: Index, plan: PathPlan, plans: map<nat, PathPlan>)
    requires Sound(index, plans) && plan.id !in plans
    ensures Sound(index, plans[plan.id := plan])
    ensures forall s: nat :: !Listed(index, s, plan.id)
  {
    hide DependsOn;
    forall s: nat | s in index ensures RowSound(index[s], s, plans[plan.id := plan]) && plan.id !in index[s] {
      assert RowSound(index[s], s, plans);
    }
  }

  lemma NowComplete(start: Index, index: Index, plan: PathPlan, plans: map<nat, PathPlan>, subjects: seq<nat>)
    requires Complete(start, plans) && plan.id !in plans && ReverseIndex.Lists(subjects, plan)
    requires forall s: nat, k: nat :: Listed(index, s, k) <==> Listed(start, s, k) || (k == plan.id && s in subjects)
    ensures Complete(index, plans[plan.id := plan])
  {
    hide DependsOn, Listed;
  }

  /** No index over these plans lists another one. */
  lemma StillLacks(index: Index, plans: map<nat, PathPlan>, subject: nat, key: nat)
    requires Sound(index, plans) && key !in plans
    ensures !Listed(index, subject, key)
  {
    hide DependsOn;
  }

  lemma IndexHasRoom(index: Index, entries: nat, complete: bool, ceiling: nat, plans: map<nat, PathPlan>)
    requires IndexOk(index, entries, complete, ceiling, plans)
    ensures complete ==> RoomFor(plans, ceiling)
  {
    hide Sound, Complete, Entries, RoomFor;
    if complete {
      CompleteHasRoom(index, plans, ceiling);
    }
  }

  lemma Overwrite(retained: map<nat, RetainedPlan>, order: seq<nat>, plan: PathPlan)
    requires OrderOk(retained, order) && plan.id in retained
    ensures OrderOk(retained[plan.id := Initial(plan)], order)
  {
  }

  lemma OverwriteIndex(index: Index, entries: nat, complete: bool, ceiling: nat, plans: map<nat, PathPlan>, plan: PathPlan)
    requires IndexOk(index, entries, complete, ceiling, plans) && plan.id in plans && SameDependencies(plans[plan.id], plan)
    ensures IndexOk(index, entries, complete, ceiling, plans[plan.id := plan])
  {
    hide DependsOn, Listed;
    var more := plans[plan.id := plan];
    forall s: nat | s in index ensures RowSound(index[s], s, more) {
      assert RowSound(index[s], s, plans);
    }
  }

  lemma Admit(retained: map<nat, RetainedPlan>, order: seq<nat>, plan: PathPlan)
    requires OrderOk(retained, order) && plan.id !in retained
    ensures OrderOk(retained[plan.id := Initial(plan)], order + [plan.id])
  {
  }

  lemma Evict(retained: map<nat, RetainedPlan>, order: seq<nat>)
    requires OrderOk(retained, order) && |order| > 0
    ensures order[0] in retained && retained[order[0]].plan.id == order[0] && OrderOk(retained - {order[0]}, order[1..])
    ensures order[0] in PlansOf(retained)
    ensures SameDependencies(PlansOf(retained)[order[0]], retained[order[0]].plan)
  {
    hide DependsOn;
    assert order == [order[0]] + order[1..];
  }

  lemma OnlyAll(retained: map<nat, RetainedPlan>, order: seq<nat>)
    requires OrderOk(retained, order)
    ensures Only(retained, order) == retained
  {
  }

  lemma OnlyLess(all: map<nat, RetainedPlan>, retained: map<nat, RetainedPlan>, order: seq<nat>)
    requires OrderOk(retained, order) && |order| > 0 && retained == Only(all, order)
    ensures retained - {order[0]} == Only(all, order[1..])
  {
    assert order == [order[0]] + order[1..];
  }

  lemma RetainedCount(retained: map<nat, RetainedPlan>, order: seq<nat>)
    requires OrderOk(retained, order)
    ensures |retained| == |order|
  {
    DistinctSize(order);
    assert Elements(order) == retained.Keys;
  }

  lemma RetainedListed(retained: map<nat, RetainedPlan>, order: seq<nat>)
    requires OrderOk(retained, order)
    ensures forall key: nat :: key in order <==> key in retained
  {
  }

  /** Collecting index rows is scanning the retained plans. */
  lemma CollectedIsScan(index: Index, entries: nat, ceiling: nat, plans: map<nat, PathPlan>, n: Notice, nodes: seq<nat>, links: seq<nat>, all: seq<nat>)
    requires IndexOk(index, entries, true, ceiling, plans)
    requires forall k: nat :: k in nodes <==> exists j :: 0 <= j < |n.nodes| && Listed(index, ForNode(n.nodes[j]), k)
    requires forall k: nat :: k in links <==> k in nodes || exists j :: 0 <= j < |n.links| && Listed(index, ForLink(n.links[j]), k)
    requires forall k: nat :: k in all <==> k in links || exists j :: 0 <= j < |n.ports| && Listed(index, ForPort(n.ports[j]), k)
    ensures forall k: nat :: k in all <==> k in plans && Meets(n, plans[k])
  {
    ListedIsDependence(index, entries, ceiling, plans);
    hide DependsOn, Listed, IndexOk, ForNode, ForLink, ForPort;
    forall k: nat ensures k in all <==> k in plans && Meets(n, plans[k]) {
    }
  }

  lemma ListedIsDependence(index: Index, entries: nat, ceiling: nat, plans: map<nat, PathPlan>)
    requires IndexOk(index, entries, true, ceiling, plans)
    ensures forall s: nat, k: nat :: Listed(index, s, k) <==> k in plans && DependsOn(plans[k], s)
  {
    hide DependsOn;
    forall s: nat, k: nat ensures Listed(index, s, k) <==> k in plans && DependsOn(plans[k], s) {
      if s in index {
        assert RowSound(index[s], s, plans);
      }
    }
  }

  lemma NoneRevised(retained: map<nat, RetainedPlan>, snapshot: Option<Published>)
    ensures Revised(retained, snapshot, []) == retained
  {
  }

  lemma Reassess(retained: map<nat, RetainedPlan>, order: seq<nat>, key: nat, c: Currentness)
    requires OrderOk(retained, order) && key in retained
    ensures OrderOk(retained[key := RetainedPlan(retained[key].plan, c)], order)
    ensures PlansOf(retained[key := RetainedPlan(retained[key].plan, c)]) == PlansOf(retained)
  {
  }
}
