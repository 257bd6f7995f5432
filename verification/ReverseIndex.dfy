/** The reverse dependency index over retained plans, as a relation between subjects and plans
    (src/planner.cpp, IndexPlan and UnindexPlan; src/result.cpp, CollectPlanDependencies). */
module ReverseIndex {
  import opened Values
  import opened Counting
  import opened Sorting
  import opened Domains
  import opened Candidates

  datatype PathPlan = PathPlan(id: nat, candidates: seq<CandidatePath>, evidence: Evidence, diagnostic: bool, currentnessProven: bool)

  ghost predicate HopUses(hop: Hop, subject: nat) {
    subject == ForLink(hop.link) || subject == ForPort(hop.fromPort) || subject == ForPort(hop.toPort)
  }

  ghost predicate PathUses(p: CandidatePath, subject: nat) {
    (exists i :: 0 <= i < |p.nodes| && subject == ForNode(p.nodes[i])) || exists i :: 0 <= i < |p.hops| && HopUses(p.hops[i], subject)
  }

  /** Some candidate of the plan runs over the node, link or port. */
  ghost predicate DependsOn(plan: PathPlan, subject: nat) {
    exists i :: 0 <= i < |plan.candidates| && PathUses(plan.candidates[i], subject)
  }

  ghost predicate Lists(subjects: seq<nat>, plan: PathPlan) {
    StrictlyAscending(subjects) && forall x: nat :: x in subjects <==> DependsOn(plan, x)
  }

  method PathSubjects(p: CandidatePath) returns (subjects: seq<nat>)
    ensures forall x: nat :: x in subjects <==> PathUses(p, x)
  {
    hide ForNode, ForLink, ForPort;
    subjects := [];
    for i := 0 to |p.nodes|
      invariant forall x: nat :: x in subjects <==> exists k :: 0 <= k < i && x == ForNode(p.nodes[k])
    {
      subjects := subjects + [ForNode(p.nodes[i])];
    }
    ghost var nodes := subjects;
    for i := 0 to |p.hops|
      invariant forall x: nat :: x in subjects <==> x in nodes || exists k :: 0 <= k < i && HopUses(p.hops[k], x)
    {
      var hop := p.hops[i];
      subjects := subjects + [ForLink(hop.link), ForPort(hop.fromPort), ForPort(hop.toPort)];
    }
  }

  /** Collected over all candidates, sorted, without repetition. */
  method CollectPlanDependencies(plan: PathPlan) returns (subjects: seq<nat>)
    ensures Lists(subjects, plan)
  {
    hide PathUses;
    var all: seq<nat> := [];
    for i := 0 to |plan.candidates|
      invariant forall x: nat :: x in all <==> exists k :: 0 <= k < i && PathUses(plan.candidates[k], x)
    {
      var more := PathSubjects(plan.candidates[i]);
      all := all + more;
    }
    subjects := SortUnique(all);
  }

  type Index = map<nat, seq<nat>>

  /** The (subject, plan) entries of the index. */
  ghost function Entries(index: Index): set<(nat, nat)> {
    set subject, key | subject in index && key in index[subject] :: (subject, key)
  }

  /** Rows are non-empty, list no plan twice, and list only retained plans that depend on the subject. */
  ghost predicate Sound(index: Index, plans: map<nat, PathPlan>) {
    forall subject: nat :: subject in index ==> RowSound(index[subject], subject, plans)
  }

  ghost predicate RowSound(row: seq<nat>, subject: nat, plans: map<nat, PathPlan>) {
    row != [] && Distinct(row) && forall i :: 0 <= i < |row| ==> row[i] in plans && DependsOn(plans[row[i]], subject)
  }

  ghost predicate Listed(index: Index, subject: nat, key: nat) {
    subject in index && key in index[subject]
  }

  /** Every dependency of every retained plan is in the index. */
  ghost predicate Complete(index: Index, plans: map<nat, PathPlan>) {
    forall key: nat, subject: nat :: key in plans && DependsOn(plans[key], subject) ==> Listed(index, subject, key)
  }

  /** Everything a complete index has to list. */
  ghost predicate Needed(plans: map<nat, PathPlan>, entries: set<(nat, nat)>) {
    forall subject: nat, key: nat :: (subject, key) in entries <==> key in plans && DependsOn(plans[key], subject)
  }

  /** The dependencies of the plans fit the ceiling. */
  ghost predicate RoomFor(plans: map<nat, PathPlan>, ceiling: nat) {
    exists entries: set<(nat, nat)> :: Needed(plans, entries) && |entries| <= ceiling
  }

  lemma CompleteHasRoom(index: Index, plans: map<nat, PathPlan>, ceiling: nat)
    requires Sound(index, plans) && Complete(index, plans) && |Entries(index)| <= ceiling
    ensures RoomFor(plans, ceiling)
  {
    hide DependsOn;
    forall subject: nat, key: nat ensures (subject, key) in Entries(index) <==> key in plans && DependsOn(plans[key], subject) {
      if (subject, key) in Entries(index) {
        assert RowSound(index[subject], subject, plans);
      }
      assert key in plans && DependsOn(plans[key], subject) ==> Listed(index, subject, key);
    }
    assert Needed(plans, Entries(index));
  }

  /** An index at its ceiling that still lacks an entry is one that there is no room for. */
  lemma NoRoom(index: Index, plans: map<nat, PathPlan>, ceiling: nat, subject: nat, key: nat)
    requires Sound(index, plans) && |Entries(index)| >= ceiling
    requires key in plans && DependsOn(plans[key], subject) && !Listed(index, subject, key)
    ensures !RoomFor(plans, ceiling)
  {
    hide DependsOn;
    forall entries: set<(nat, nat)> | Needed(plans, entries) ensures |entries| > ceiling {
      forall e | e in Entries(index) ensures e in entries {
        assert RowSound(index[e.0], e.0, plans);
      }
      assert (subject, key) in entries && (subject, key) !in Entries(index);
      assert Entries(index) <= entries - {(subject, key)};
      SmallerSet(Entries(index), entries - {(subject, key)});
    }
  }

  lemma {:induction false} SmallerSet(x: set<(nat, nat)>, y: set<(nat, nat)>)
    requires x <= y
    ensures |x| <= |y|
  {
    assert y == x + (y - x);
  }

  function Push(index: Index, subject: nat, key: nat): Index {
    index[subject := (if subject in index then index[subject] else []) + [key]]
  }

  function Drop(row: seq<nat>, key: nat): (r: seq<nat>) {
    if row == [] then [] else Drop(row[..|row| - 1], key) + (if row[|row| - 1] == key then [] else [row[|row| - 1]])
  }

  lemma {:induction false} DropFacts(row: seq<nat>, key: nat)
    ensures forall x: nat :: x in Drop(row, key) <==> x in row && x != key
    ensures Distinct(row) ==> Distinct(Drop(row, key)) && |Drop(row, key)| == |row| - (if key in row then 1 else 0)
  {
    if row != [] {
      var front: seq<nat>, last := row[..|row| - 1], row[|row| - 1];
      DropFacts(front, key);
      assert row == front + [last];
      if Distinct(row) {
        assert last !in front;
      }
    }
  }

  function Remove(index: Index, subject: nat, key: nat): Index {
    if subject !in index then index
    else
      var row := Drop(index[subject], key);
      if row == [] then map s | s in index && s != subject :: index[s] else index[subject := row]
  }

  lemma PushStep(index: Index, subject: nat, key: nat, plans: map<nat, PathPlan>)
    requires Sound(index, plans) && key in plans && DependsOn(plans[key], subject) && !Listed(index, subject, key)
    ensures Sound(Push(index, subject, key), plans)
    ensures Entries(Push(index, subject, key)) == Entries(index) + {(subject, key)}
    ensures |Entries(Push(index, subject, key))| == |Entries(index)| + 1
    ensures forall s: nat, k: nat :: Listed(Push(index, subject, key), s, k) <==> Listed(index, s, k) || (s == subject && k == key)
  {
    hide DependsOn;
    var after := Push(index, subject, key);
    forall s: nat | s in after ensures RowSound(after[s], s, plans) {
      if s == subject && s in index {
        assert RowSound(index[s], s, plans);
      } else if s != subject {
        assert RowSound(index[s], s, plans);
      }
    }
    assert (subject, key) !in Entries(index);
    PushEntries(index, subject, key);
  }

  lemma PushEntries(index: Index, subject: nat, key: nat)
    ensures Entries(Push(index, subject, key)) == Entries(index) + {(subject, key)}
  {
    var after := Push(index, subject, key);
    forall e: (nat, nat) ensures e in Entries(after) <==> e in Entries(index) || e == (subject, key) {
    }
  }

  lemma RemoveStep(index: Index, subject: nat, key: nat, plans: map<nat, PathPlan>)
    requires Sound(index, plans)
    ensures Sound(Remove(index, subject, key), plans)
    ensures |Entries(Remove(index, subject, key))| == |Entries(index)| - (if Listed(index, subject, key) then 1 else 0)
    ensures forall s: nat, k: nat :: Listed(Remove(index, subject, key), s, k) <==> Listed(index, s, k) && (s != subject || k != key)
  {
    hide DependsOn;
    var after := Remove(index, subject, key);
    if subject in index {
      assert RowSound(index[subject], subject, plans);
      DropFacts(index[subject], key);
      forall s: nat | s in after ensures RowSound(after[s], s, plans) {
        if s != subject {
          assert RowSound(index[s], s, plans);
        } else {
          forall i | 0 <= i < |after[s]| ensures after[s][i] in plans && DependsOn(plans[after[s][i]], s) {
            assert after[s][i] in Drop(index[s], key) && after[s][i] in index[s];
          }
        }
      }
    }
    RemoveEntries(index, subject, key);
  }

  lemma RemoveEntries(index: Index, subject: nat, key: nat)
    ensures Entries(Remove(index, subject, key)) == Entries(index) - {(subject, key)}
    ensures |Entries(Remove(index, subject, key))| == |Entries(index)| - (if Listed(index, subject, key) then 1 else 0)
    ensures forall s: nat, k: nat :: Listed(Remove(index, subject, key), s, k) <==> Listed(index, s, k) && (s != subject || k != key)
  {
    if subject in index {
      DropFacts(index[subject], key);
    }
    var after := Remove(index, subject, key);
    forall s: nat, k: nat ensures Listed(after, s, k) <==> Listed(index, s, k) && (s != subject || k != key) {
    }
    forall e: (nat, nat) ensures e in Entries(after) <==> e in Entries(index) && e != (subject, key) {
      assert e in Entries(after) <==> Listed(after, e.0, e.1);
      assert e in Entries(index) <==> Listed(index, e.0, e.1);
    }
    assert Entries(after) == Entries(index) - {(subject, key)};
    assert Listed(index, subject, key) <==> (subject, key) in Entries(index);
  }
}
