/** The published fabric a plan is made from (src/graph.cpp): node and edge records in identity
    order, and the consumed views with their binary-search lookups. */
module Fabric {
  import opened Values
  import opened Wrappers
  import opened View
  import opened Domains

  datatype LinkState = Up | Down | Faulted | Retired | RevalidationRequired | Unknown | Degraded

  datatype PortState = Up | AdminDisabled | Draining | Maintenance | Retired | Superseded | RevalidationRequired | Unknown

  datatype Edge = Edge(
    id: id16, from: id16, to: id16, fromPort: id16, toPort: id16,
    layer: PathLayer, relationship: Relationship, structuralGeneration: u64, staticCost: u32)

  /** A published value under its key. */
  datatype Record<T> = Record(key: nat, value: T)

  ghost predicate Sorted<T>(records: seq<Record<T>>) {
    forall i, j :: 0 <= i < j < |records| ==> records[i].key < records[j].key
  }

  /** What is published under a key, whatever the order of the records. */
  ghost function Find<T>(records: seq<Record<T>>, key: nat): Option<T> {
    if i :| 0 <= i < |records| && records[i].key == key then Some(records[i].value) else None
  }

  ghost predicate KeysOnce<T>(records: seq<Record<T>>) {
    forall i, j :: 0 <= i < j < |records| ==> records[i].key != records[j].key
  }

  lemma FindIs<T>(records: seq<Record<T>>, i: nat)
    requires KeysOnce(records) && i < |records|
    ensures Find(records, records[i].key) == Some(records[i].value)
  {
    var j :| 0 <= j < |records| && records[j].key == records[i].key && Find(records, records[i].key) == Some(records[j].value);
  }

  lemma FindNone<T>(records: seq<Record<T>>, key: nat)
    requires forall i :: 0 <= i < |records| ==> records[i].key != key
    ensures Find(records, key) == None
  {
  }

  /** std::lower_bound on record keys. */
  method LowerBound<T>(records: seq<Record<T>>, key: nat) returns (low: nat)
    requires Sorted(records)
    ensures low <= |records|
    ensures forall i :: 0 <= i < low ==> records[i].key < key
    ensures forall i :: low <= i < |records| ==> records[i].key >= key
  {
    var high := |records|;
    low := 0;
    while low < high
      invariant 0 <= low <= high <= |records|
      invariant forall i :: 0 <= i < low ==> records[i].key < key
      invariant forall i :: high <= i < |records| ==> records[i].key >= key
    {
      var mid := low + (high - low) / 2;
      if records[mid].key < key {
        low := mid + 1;
      } else {
        high := mid;
      }
    }
  }

  method Lookup<T>(records: seq<Record<T>>, key: nat) returns (r: Option<T>)
    requires Sorted(records)
    ensures r == Find(records, key)
  {
    var i := LowerBound(records, key);
    if i == |records| || records[i].key != key {
      return None;
    }
    FindIs(records, i);
    r := Some(records[i].value);
  }

  function Insert<T>(r: Record<T>, s: seq<Record<T>>): seq<Record<T>> {
    if s == [] || r.key <= s[0].key then [r] + s else [s[0]] + Insert(r, s[1..])
  }

  /** std::sort by key, as the view constructors use it. */
  function SortRecords<T>(s: seq<Record<T>>): seq<Record<T>> {
    if s == [] then [] else Insert(s[0], SortRecords(s[1..]))
  }

  lemma {:induction false} InsertKeeps<T>(r: Record<T>, s: seq<Record<T>>)
    ensures multiset(Insert(r, s)) == multiset(s) + multiset{r}
  {
    if s != [] && r.key > s[0].key {
      InsertKeeps(r, s[1..]);
      assert s == [s[0]] + s[1..];
    }
  }

  lemma {:induction false} InsertSorted<T>(r: Record<T>, s: seq<Record<T>>)
    requires Sorted(s) && forall i :: 0 <= i < |s| ==> s[i].key != r.key
    ensures Sorted(Insert(r, s))
  {
    if s != [] && r.key > s[0].key {
      InsertSorted(r, s[1..]);
      InsertKeeps(r, s[1..]);
      var t := Insert(r, s[1..]);
      forall i | 0 <= i < |t| ensures s[0].key < t[i].key {
        assert t[i] in multiset(t);
        assert t[i] == r || t[i] in s[1..];
      }
    }
  }

  lemma {:induction false} SortKeeps<T>(s: seq<Record<T>>)
    ensures multiset(SortRecords(s)) == multiset(s)
  {
    if s != [] {
      SortKeeps(s[1..]);
      InsertKeeps(s[0], SortRecords(s[1..]));
      assert s == [s[0]] + s[1..];
    }
  }

  lemma SortedKeysOnce<T>(s: seq<Record<T>>)
    requires Sorted(s)
    ensures KeysOnce(s)
  {
  }

  /** The sorted view of records with distinct keys answers every lookup as the published list does. */
  lemma {:induction false} SortedViewIsPublished<T>(s: seq<Record<T>>, key: nat)
    requires KeysOnce(s)
    ensures Sorted(SortRecords(s)) && Find(SortRecords(s), key) == Find(s, key)
  {
    hide Find, SortRecords, Sorted, KeysOnce;
    SortRecordsSorted(s);
    var r := SortRecords(s);
    SortedKeysOnce(r);
    if i: nat :| i < |s| && s[i].key == key {
      var k := SortedPosition(s, i);
      FindIs(s, i);
      FindIs(r, k);
    } else {
      forall k: nat | k < |r| ensures r[k].key != key {
        var i := SourcePosition(s, k);
      }
      FindNone(s, key);
      FindNone(r, key);
    }
  }

  lemma SortedPosition<T>(s: seq<Record<T>>, i: nat) returns (k: nat)
    requires i < |s|
    ensures k < |SortRecords(s)| && SortRecords(s)[k] == s[i]
  {
    SortKeeps(s);
    assert s[i] in multiset(s);
    k :| 0 <= k < |SortRecords(s)| && SortRecords(s)[k] == s[i];
  }

  lemma SourcePosition<T>(s: seq<Record<T>>, k: nat) returns (i: nat)
    requires k < |SortRecords(s)|
    ensures i < |s| && SortRecords(s)[k] == s[i]
  {
    SortKeeps(s);
    assert SortRecords(s)[k] in multiset(SortRecords(s));
    i :| 0 <= i < |s| && SortRecords(s)[k] == s[i];
  }

  lemma {:induction false} SortRecordsSorted<T>(s: seq<Record<T>>)
    requires KeysOnce(s)
    ensures Sorted(SortRecords(s))
  {
    if s != [] {
      SortRecordsSorted(s[1..]);
      var t := SortRecords(s[1..]);
      forall i: nat | i < |t| ensures t[i].key != s[0].key {
        var k := SourcePosition(s[1..], i);
        assert s[k + 1] == t[i];
      }
      InsertSorted(s[0], t);
    }
  }

  /** Capability bindings are ordered by subject, then by the 8-byte capability identity. */
  function CapabilityKey(subject: nat, capability: id8): nat {
    subject * U64_RANGE + capability
  }

  /** No two bindings share a key. */
  lemma BindingsDiffer(x: nat, c: id8, y: nat, d: id8)
    ensures CapabilityKey(x, c) == CapabilityKey(y, d) ==> x == y && c == d
  {
  }

  datatype Snapshot = Snapshot(
    nodes: seq<id16>,
    edges: seq<Edge>,
    linkStates: seq<Record<LinkState>>,
    portStates: seq<Record<PortState>>,
    capabilities: seq<Record<nat>>,
    domains: DomainView,
    domainClasses: seq<Record<nat>>)
  {
    /** What the snapshot builder checks (no nil identity among it), and distinct keys in the consumed views. */
    ghost predicate Valid() {
      && |nodes| < INFINITE_HOPS
      && (forall i, j :: 0 <= i < j < |nodes| ==> nodes[i] < nodes[j])
      && (forall i, j :: 0 <= i < j < |edges| ==> edges[i].id < edges[j].id)
      && (forall i :: 0 <= i < |edges| ==> edges[i].from in nodes && edges[i].to in nodes && edges[i].from != edges[i].to)
      && (forall i :: 0 <= i < |nodes| ==> nodes[i] > 0)
      && (forall i :: 0 <= i < |edges| ==> edges[i].id > 0 && edges[i].fromPort > 0 && edges[i].toPort > 0)
      && Sorted(linkStates) && Sorted(portStates) && Sorted(capabilities) && Sorted(domainClasses)
      && domains.Valid()
    }

    ghost function LinkStateOf(link: id16): LinkState {
      match Find(linkStates, link) case Some(state) => state case None => LinkState.Unknown
    }

    ghost function PortStateOf(port: id16): PortState {
      match Find(portStates, port) case Some(state) => state case None => PortState.Unknown
    }
  }

  /** Node lookup by identity. */
  method FindNode(s: Snapshot, id: id16) returns (r: Option<nat>)
    requires forall i, j :: 0 <= i < j < |s.nodes| ==> s.nodes[i] < s.nodes[j]
    ensures r.None? ==> id !in s.nodes
    ensures r.Some? ==> r.value < |s.nodes| && s.nodes[r.value] == id
  {
    var low, high := 0, |s.nodes|;
    while low < high
      invariant 0 <= low <= high <= |s.nodes|
      invariant forall i :: 0 <= i < low ==> s.nodes[i] < id
      invariant forall i :: high <= i < |s.nodes| ==> s.nodes[i] >= id
    {
      var mid := low + (high - low) / 2;
      if s.nodes[mid] < id {
        low := mid + 1;
      } else {
        high := mid;
      }
    }
    r := if low < |s.nodes| && s.nodes[low] == id then Some(low) else None;
  }
}
