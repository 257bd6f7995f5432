/** Which nodes and edges a request may use (src/planning_view.cpp, EvaluateNode,
    CapabilitySatisfied, FailureDomainCompliant and the edge filter of BuildPlanningView). */
module Eligibility {
  import opened Values
  import opened Wrappers
  import opened View
  import opened Sorting
  import opened Domains
  import opened Fabric

  /** The hard constraints of a request and the policy it is planned under. */
  datatype Rules = Rules(
    layer: PathLayer,
    forbiddenNodes: seq<id16>,
    forbiddenLinks: seq<id16>,
    forbiddenPorts: seq<id16>,
    forbiddenDomains: seq<id8>,
    forbiddenClasses: seq<id8>,
    requirements: seq<Requirement>,
    failClosed: bool,
    costModel: CostModel,
    localityScope: seq<id16>,
    allowDegraded: bool,
    allowDraining: bool,
    allowMaintenance: bool,
    requireProof: bool,
    diagnostic: bool)

  ghost predicate Meets(r: Requirement, observed: nat) {
    && (r.comparator == AT_LEAST ==> observed >= r.value)
    && (r.comparator == AT_MOST ==> observed <= r.value)
    && (r.comparator == EQUAL ==> observed == r.value)
  }

  ghost predicate Satisfied(s: Snapshot, subject: nat, r: Requirement) {
    var observed := Find(s.capabilities, CapabilityKey(subject, r.capability));
    observed.Some? && Meets(r, observed.value)
  }

  /** Why a node or an end is refused. */
  datatype Code = ForbiddenNode | CapabilityUnknown | CapabilityInsufficient
    | FailureDomainUnknown | FailureDomainForbidden | FailureDomainClassForbidden

  ghost function CapabilityFailure(s: Snapshot, subject: nat, r: Requirement): Option<Code> {
    match Find(s.capabilities, CapabilityKey(subject, r.capability))
    case None => Some(CapabilityUnknown)
    case Some(observed) => if Meets(r, observed) then None else Some(CapabilityInsufficient)
  }

  /** The failure of the first domain, in order, that is forbidden. */
  ghost function FirstDomainFailure(s: Snapshot, r: Rules, domains: seq<nat>): Option<Code> {
    if domains == [] then None
    else if domains[0] in r.forbiddenDomains then Some(FailureDomainForbidden)
    else if DomainForbidden(s, r, domains[0]) then Some(FailureDomainClassForbidden)
    else FirstDomainFailure(s, r, domains[1..])
  }

  ghost function DomainsFailure(s: Snapshot, r: Rules, subject: nat): Option<Code> {
    if s.domains.Known(subject) then FirstDomainFailure(s, r, s.domains.DomainsOf(subject))
    else if DomainsAllowed(s, r, subject) then None
    else Some(FailureDomainUnknown)
  }

  /** The failure of the first requirement, in order, that bears on the subject and is not met. */
  ghost function FirstCapabilityFailure(s: Snapshot, qs: seq<Requirement>, bears: Requirement -> Option<nat>): Option<Code> {
    if qs == [] then None
    else if bears(qs[0]).Some? && CapabilityFailure(s, bears(qs[0]).value, qs[0]).Some? then CapabilityFailure(s, bears(qs[0]).value, qs[0])
    else FirstCapabilityFailure(s, qs[1..], bears)
  }

  function OnNode(id: id16): Requirement -> Option<nat> {
    (q: Requirement) => if q.scope == EVERY_NODE then Some(ForNode(id)) else None
  }

  /** Forbidden identities come before capabilities, capabilities before failure domains. */
  ghost function NodeFailure(s: Snapshot, r: Rules, id: id16): Option<Code> {
    if id in r.forbiddenNodes then Some(ForbiddenNode)
    else
      var capability := FirstCapabilityFailure(s, r.requirements, OnNode(id));
      if capability.Some? then capability else DomainsFailure(s, r, ForNode(id))
  }

  ghost predicate DomainForbidden(s: Snapshot, r: Rules, d: nat) {
    d in r.forbiddenDomains || (Find(s.domainClasses, d).Some? && Find(s.domainClasses, d).value in r.forbiddenClasses)
  }

  /** No domain of the subject is forbidden, and an unknown membership is allowed or does not matter. */
  ghost predicate DomainsAllowed(s: Snapshot, r: Rules, subject: nat) {
    if s.domains.Known(subject) then
      forall d: nat :: Member(subject, d) in s.domains.members ==> !DomainForbidden(s, r, d)
    else
      !r.failClosed || (r.forbiddenDomains == [] && r.forbiddenClasses == [])
  }

  ghost predicate NodeEligible(s: Snapshot, r: Rules, id: id16) {
    && id in s.nodes && id !in r.forbiddenNodes
    && (forall k :: 0 <= k < |r.requirements| && r.requirements[k].scope == EVERY_NODE ==> Satisfied(s, ForNode(id), r.requirements[k]))
    && DomainsAllowed(s, r, ForNode(id))
  }

  /** Up is always usable; the other states only where the policy allows them. */
  ghost predicate LinkUsable(r: Rules, state: LinkState) {
    && !state.Down? && !state.Faulted? && !state.Retired?
    && (state.Degraded? ==> r.allowDegraded)
    && (state.RevalidationRequired? ==> r.diagnostic)
    && (state.Unknown? ==> r.diagnostic || !r.requireProof)
  }

  ghost predicate PortUsable(r: Rules, state: PortState) {
    && !state.AdminDisabled? && !state.Retired? && !state.Superseded?
    && (state.Draining? ==> r.allowDraining || r.diagnostic)
    && (state.Maintenance? ==> r.allowMaintenance || r.diagnostic)
    && (state.RevalidationRequired? ==> r.diagnostic)
    && (state.Unknown? ==> r.diagnostic || !r.requireProof)
  }

  ghost predicate RequirementKept(s: Snapshot, e: Edge, q: Requirement) {
    && (q.scope == EVERY_LINK ==> Satisfied(s, ForLink(e.id), q))
    && (q.scope == EVERY_PORT ==> Satisfied(s, ForPort(e.fromPort), q) && Satisfied(s, ForPort(e.toPort), q))
  }

  ghost predicate Outside(r: Rules, e: Edge) {
    r.localityScope != [] && e.to !in r.localityScope
  }

  ghost function TraversalCost(s: Snapshot, r: Rules, e: Edge): nat {
    e.staticCost + (if s.LinkStateOf(e.id) == LinkState.Degraded then r.costModel.degradedPenalty else 0)
                 + (if Outside(r, e) then r.costModel.localityPenalty else 0)
  }

  /** Everything the hard constraints ask of one link, its ports and its end nodes. */
  ghost predicate EdgeEligible(s: Snapshot, r: Rules, e: Edge) {
    && e.layer == r.layer
    && e.id !in r.forbiddenLinks && e.fromPort !in r.forbiddenPorts && e.toPort !in r.forbiddenPorts
    && NodeEligible(s, r, e.from) && NodeEligible(s, r, e.to)
    && LinkUsable(r, s.LinkStateOf(e.id))
    && PortUsable(r, s.PortStateOf(e.fromPort)) && PortUsable(r, s.PortStateOf(e.toPort))
    && (forall k :: 0 <= k < |r.requirements| ==> RequirementKept(s, e, r.requirements[k]))
    && DomainsAllowed(s, r, ForLink(e.id)) && DomainsAllowed(s, r, ForPort(e.fromPort)) && DomainsAllowed(s, r, ForPort(e.toPort))
    && TraversalCost(s, r, e) <= MAX_COST
  }

  /** Search in a sorted copy of a constraint list. */
  method Contains(values: seq<nat>, x: nat) returns (b: bool)
    ensures b <==> x in values
  {
    hide Sort;
    SortMembers(values);
    b := BinarySearch(Sort(values), x);
  }

  method SatisfiedBy(r: Requirement, observed: nat) returns (b: bool)
    ensures b <==> Meets(r, observed)
  {
    if r.comparator == AT_LEAST {
      return observed >= r.value;
    }
    if r.comparator == AT_MOST {
      return observed <= r.value;
    }
    b := observed == r.value;
  }

  lemma CapabilitiesSorted(s: Snapshot)
    requires s.Valid()
    ensures Fabric.Sorted(s.capabilities)
  {
  }

  method CapabilitySatisfied(s: Snapshot, subject: nat, r: Requirement) returns (failure: Option<Code>)
    requires s.Valid()
    ensures failure == CapabilityFailure(s, subject, r)
    ensures failure.None? <==> Satisfied(s, subject, r)
    ensures var published := Find(s.capabilities, CapabilityKey(subject, r.capability));
      && (failure == Some(CapabilityUnknown) <==> published.None?)
      && (r.comparator == AT_LEAST ==> (failure.None? <==> published.Some? && published.value >= r.value))
      && (r.comparator == AT_MOST ==> (failure.None? <==> published.Some? && published.value <= r.value))
      && (r.comparator == EQUAL ==> (failure.None? <==> published == Some(r.value)))
  {
    hide Snapshot.Valid;
    CapabilitiesSorted(s);
    var observed := Lookup(s.capabilities, CapabilityKey(subject, r.capability));
    if observed.None? {
      return Some(CapabilityUnknown);
    }
    var satisfied := SatisfiedBy(r, observed.value);
    failure := if satisfied then None else Some(CapabilityInsufficient);
  }

  method FailureDomainCompliant(s: Snapshot, r: Rules, subject: nat) returns (failure: Option<Code>)
    requires s.Valid()
    ensures failure == DomainsFailure(s, r, subject)
    ensures failure.None? <==> DomainsAllowed(s, r, subject)
  {
    var membership := MembershipOf(s.domains, subject);
    SelectAscending(s.domains.members, subject);
    hide Find, DomainForbidden, Snapshot.Valid;
    if !membership.known {
      return if r.failClosed && (|r.forbiddenDomains| != 0 || |r.forbiddenClasses| != 0) then Some(FailureDomainUnknown) else None;
    }
    var domains := membership.domains;
    assert domains[0..] == domains;
    for i := 0 to |domains|
      invariant forall k :: 0 <= k < i ==> !DomainForbidden(s, r, domains[k])
      invariant FirstDomainFailure(s, r, domains) == FirstDomainFailure(s, r, domains[i..])
    {
      assert domains[i] in domains && domains[i..][1..] == domains[i + 1..];
      failure := IsForbidden(s, r, domains[i]);
      if failure.Some? {
        return;
      }
    }
    failure := None;
  }

  method IsForbidden(s: Snapshot, r: Rules, d: nat) returns (failure: Option<Code>)
    requires s.Valid()
    ensures failure == if d in r.forbiddenDomains then Some(FailureDomainForbidden) else if DomainForbidden(s, r, d) then Some(FailureDomainClassForbidden) else None
    ensures failure.None? <==> !DomainForbidden(s, r, d)
  {
    hide Find;
    var listed := Contains(r.forbiddenDomains, d);
    if listed {
      return Some(FailureDomainForbidden);
    }
    if |r.forbiddenClasses| != 0 {
      var class_ := Lookup(s.domainClasses, d);
      if class_.Some? {
        var forbidden := Contains(r.forbiddenClasses, class_.value);
        return if forbidden then Some(FailureDomainClassForbidden) else None;
      }
    }
    failure := None;
  }

  /** The first reason a node is excluded for, or none exactly when it is eligible. */
  method EvaluateNode(s: Snapshot, r: Rules, id: id16) returns (failure: Option<Code>)
    requires s.Valid() && id in s.nodes
    ensures failure == NodeFailure(s, r, id)
    ensures failure.None? <==> NodeEligible(s, r, id)
  {
    hide Snapshot.Valid, Satisfied, DomainsAllowed, ForNode, CapabilityFailure, DomainsFailure;
    var forbidden := Contains(r.forbiddenNodes, id);
    if forbidden {
      return Some(ForbiddenNode);
    }
    assert r.requirements[0..] == r.requirements;
    for i := 0 to |r.requirements|
      invariant forall k :: 0 <= k < i && r.requirements[k].scope == EVERY_NODE ==> Satisfied(s, ForNode(id), r.requirements[k])
      invariant FirstCapabilityFailure(s, r.requirements, OnNode(id)) == FirstCapabilityFailure(s, r.requirements[i..], OnNode(id))
    {
      assert r.requirements[i..][1..] == r.requirements[i + 1..] && r.requirements[i..][0] == r.requirements[i];
      if r.requirements[i].scope != EVERY_NODE {
        continue;
      }
      failure := CapabilitySatisfied(s, ForNode(id), r.requirements[i]);
      if failure.Some? {
        return;
      }
    }
    failure := FailureDomainCompliant(s, r, ForNode(id));
  }

  method StatesUsable(s: Snapshot, r: Rules, e: Edge) returns (usable: bool, degraded: bool)
    requires s.Valid()
    ensures usable <==> LinkUsable(r, s.LinkStateOf(e.id)) && PortUsable(r, s.PortStateOf(e.fromPort)) && PortUsable(r, s.PortStateOf(e.toPort))
    ensures usable ==> (degraded <==> s.LinkStateOf(e.id) == LinkState.Degraded)
  {
    hide Find;
    var link := Lookup(s.linkStates, e.id);
    usable, degraded := LinkStateUsable(r, if link.Some? then link.value else LinkState.Unknown);
    if !usable {
      return;
    }
    var from := Lookup(s.portStates, e.fromPort);
    usable := PortStateUsable(r, if from.Some? then from.value else PortState.Unknown);
    if !usable {
      return;
    }
    var to := Lookup(s.portStates, e.toPort);
    usable := PortStateUsable(r, if to.Some? then to.value else PortState.Unknown);
  }

  method LinkStateUsable(r: Rules, state: LinkState) returns (usable: bool, degraded: bool)
    ensures usable <==> LinkUsable(r, state)
    ensures usable ==> (degraded <==> state == LinkState.Degraded)
  {
    usable, degraded := true, false;
    match state
    case Up =>
    case Degraded =>
      if r.allowDegraded {
        degraded := true;
      } else {
        usable := false;
      }
    case Down | Faulted | Retired =>
      usable := false;
    case RevalidationRequired =>
      usable := r.diagnostic;
    case Unknown =>
      var proofNeeded := r.requireProof && !r.diagnostic;
      usable := !proofNeeded;
  }

  method PortStateUsable(r: Rules, state: PortState) returns (usable: bool)
    ensures usable <==> PortUsable(r, state)
  {
    match state
    case Up =>
      usable := true;
    case AdminDisabled | Retired | Superseded =>
      usable := false;
    case Draining =>
      usable := r.allowDraining || r.diagnostic;
    case Maintenance =>
      usable := r.allowMaintenance || r.diagnostic;
    case RevalidationRequired =>
      usable := r.diagnostic;
    case Unknown =>
      var proofNeeded := r.requireProof && !r.diagnostic;
      usable := !proofNeeded;
  }

  method RequirementsKept(s: Snapshot, r: Rules, e: Edge) returns (b: bool)
    requires s.Valid()
    ensures b <==> forall k :: 0 <= k < |r.requirements| ==> RequirementKept(s, e, r.requirements[k])
  {
    hide Snapshot.Valid, Satisfied, ForLink, ForPort;
    for i := 0 to |r.requirements|
      invariant forall k :: 0 <= k < i ==> RequirementKept(s, e, r.requirements[k])
    {
      var q := r.requirements[i];
      if q.scope == EVERY_LINK {
        var failure := CapabilitySatisfied(s, ForLink(e.id), q);
        if failure.Some? {
          return false;
        }
      } else if q.scope == EVERY_PORT {
        var failure := CapabilitySatisfied(s, ForPort(e.fromPort), q);
        if failure.None? {
          failure := CapabilitySatisfied(s, ForPort(e.toPort), q);
        }
        if failure.Some? {
          return false;
        }
      }
    }
    b := true;
  }

  /** Checked accumulation of an edge's traversal cost. */
  method ResolveCost(r: Rules, e: Edge, degraded: bool) returns (cost: Option<nat>, outside: bool)
    ensures outside ==> Outside(r, e)
    ensures cost.Some? ==> (outside <==> Outside(r, e))
    ensures var total := e.staticCost + (if degraded then r.costModel.degradedPenalty else 0) + (if Outside(r, e) then r.costModel.localityPenalty else 0);
            e.staticCost <= MAX_COST ==> cost == if total <= MAX_COST then Some(total) else None
  {
    var traversal := e.staticCost;
    outside := false;
    if degraded {
      var sum := CheckedAdd(traversal, r.costModel.degradedPenalty);
      if sum.None? {
        return None, false;
      }
      traversal := sum.value;
    }
    if |r.localityScope| != 0 {
      var inside := Contains(r.localityScope, e.to);
      outside := !inside;
      if outside {
        var sum := CheckedAdd(traversal, r.costModel.localityPenalty);
        if sum.None? {
          return None, outside;
        }
        traversal := sum.value;
      }
    }
    cost := Some(traversal);
  }

  method DomainsKept(s: Snapshot, r: Rules, e: Edge) returns (b: bool)
    requires s.Valid()
    ensures b <==> DomainsAllowed(s, r, ForLink(e.id)) && DomainsAllowed(s, r, ForPort(e.fromPort)) && DomainsAllowed(s, r, ForPort(e.toPort))
  {
    hide Snapshot.Valid, DomainsAllowed, ForLink, ForPort;
    var failure := FailureDomainCompliant(s, r, ForLink(e.id));
    if failure.None? {
      failure := FailureDomainCompliant(s, r, ForPort(e.fromPort));
    }
    if failure.None? {
      failure := FailureDomainCompliant(s, r, ForPort(e.toPort));
    }
    b := failure.None?;
  }

  datatype Priced = Priced(cost: nat, degraded: bool, outside: bool)

  /** The edge filter; the end nodes' own verdicts are given. */
  method EvaluateEdge(s: Snapshot, r: Rules, e: Edge, endsEligible: bool) returns (p: Option<Priced>)
    requires s.Valid() && e.staticCost <= MAX_COST
    requires endsEligible <==> NodeEligible(s, r, e.from) && NodeEligible(s, r, e.to)
    ensures p.Some? <==> EdgeEligible(s, r, e)
    ensures p.Some? ==> p.value == Priced(TraversalCost(s, r, e), s.LinkStateOf(e.id) == LinkState.Degraded, Outside(r, e))
  {
    hide Snapshot.Valid, DomainsAllowed, Satisfied, NodeEligible, RequirementKept, LinkUsable, PortUsable, Snapshot.LinkStateOf, Snapshot.PortStateOf;
    if e.layer != r.layer {
      return None;
    }
    var link := Contains(r.forbiddenLinks, e.id);
    if link {
      return None;
    }
    var from := Contains(r.forbiddenPorts, e.fromPort);
    var to := Contains(r.forbiddenPorts, e.toPort);
    if from || to {
      return None;
    }
    if !endsEligible {
      return None;
    }
    var usable, degraded := StatesUsable(s, r, e);
    if !usable {
      return None;
    }
    var kept := RequirementsKept(s, r, e);
    if !kept {
      return None;
    }
    kept := DomainsKept(s, r, e);
    if !kept {
      return None;
    }
    var cost, outside := ResolveCost(r, e, degraded);
    p := if cost.Some? then Some(Priced(cost.value, degraded, outside)) else None;
  }
}
