# Path planner: a model and its proofs

The path planner answers "give me the K best paths from this node to that one" over a published
fabric snapshot. It filters the snapshot down to an eligible view, searches that view, ranks what
it finds, and keeps answers as plans that later invalidations, epochs and snapshots make stale. A
coordinator hands requests to worker processes and accepts only publications that are still valid.
Requests and saved plans travel as canonical byte strings.

This project models those parts in Dafny, one module per component, and proves what the program is
for:

- **Search.** Both Dijkstra variants (over nodes, and over hop-expanded states) give the one
  canonical minimum under (cost, hops, node sequence, link sequence), or nothing exactly when
  nothing is eligible. The mode switch never shows in an answer.
- **Enumeration.** Yen's enumeration gives the first K routes in canonical order, none missing and
  none twice, when no two routes meet at a node over different links. Where routes meet the order
  still holds, a route is missed exactly when it is shadowed (`YenSpec.Shadowed`), and a concrete
  fabric shows two routes that are never listed. On top of it: ordered transit stages over every
  combination of alternatives, each leg the first walk onward within the hop bound of the whole, and
  the failure-domain member limit.
- **View and candidates.** The CSR view holds exactly the eligible edges, each once, in order; a
  build is refused with exactly the finding that the snapshot gives reason for. Every candidate is a
  well-formed simple path over permitted nodes, links and ports, at its itemised price; nothing that
  meets the request ranks before what is returned when no two eligible links are parallel. What that
  means is said field by field of the decoded request (`RequestMeaning.RequestMeans`,
  `RequestMeaning.PriceMeans`).
- **Budgets.** How many searches a request can take, and what a search can spend, are bounded by the
  sizes of the snapshot, so a caller can choose limits that are never reported as exhausted.
- **Runtime.** The bounded reverse index agrees with a plain scan, retention is first-in-first-out,
  a compare-before-publish watermark is exact over every interleaving, and a plan restored without
  proof is not found current until a proven one takes its place or it is evicted.
- **Coordinator.** Over every run of its locked sections, an open request slot has a live owner, an
  accepted result passed validation, everything that passed was made for the epoch and snapshot in
  force at that moment, and neither a fenced boot, an outdated epoch nor a superseded snapshot passes
  again.
- **Bytes.** Request payloads and saved plans round-trip in both directions, different records have
  different images, and the streaming hash is SHA-256 of the whole message however it is cut up
  (FIPS 180-4, sections 5.1.1 and 6.2.2). Known images and the published digest of "abc" fix the
  formats byte by byte.
- **End to end.** Bytes of a request to its candidates (`Intake.PlanPayload`), and candidates to the
  store and back (`SavedPlans.PlanSaveRestore`).

Seven claims one might expect are false of the code; each comes with an input on which it fails and
with the condition under which it holds:

- Completeness of the enumeration on views with parallel links (`LostPath.NeverListed`). For a single
  route the condition is exact: it is missed iff it is shadowed (`YenProof.ExhaustedIsFirst`). For the
  whole view, "no two routes meet at a node over different links" (`YenSpec.NoMeeting`) is sufficient,
  and "no two links join the same ordered node pair" (`View.View.NoParallel`) is sufficient for that;
  neither is necessary, since a meeting need not cost a route its place in the list.
- "`max_members_per_failure_domain` is honoured" (`README.md:172` of the repository lists it without
  exception): with required transit the enumeration returns before the filter
  (`src/search.cpp:630-777`), so the limit is not applied. `Corridor.PlanGuarded` plans one fabric on
  which the only answer breaks the limit, and with stages the answer is the same under every limit
  (`Planning.LimitPlaysNoPart`). Without required transit every candidate keeps the limit
  (`Planning.PlanCandidates`), so an empty list of stages is the condition.
- "A stage is met where the path already is": a stage is refused once the hop bound is spent, before
  the walk without hops is considered (`src/search.cpp:690-694`). `Corridor.PlanStaying` plans a
  request whose stage is its source and whose hop bound is zero: the path without hops meets all of it
  and nothing is returned. Where any walk leads on to a stage, the stage is reached exactly when hops
  are left (`TransitLaws.StageReached`).
- "Whatever planning returns can be saved and loaded": planning without a requested hop bound can
  return a path longer than the configured `max_hops`, which the store's decoder refuses
  (`SavedPlans.PlannedBeyondMaximum` plans, saves and fails to load). A set of planned records loads
  exactly when every candidate keeps the maximum, no plan is named twice and no path identities
  collide (`SavedPlans.SaveAndRestore`); a request with its own hop bound always keeps the maximum
  (`SavedPlans.BoundedPlansKeepMaximum`).
- "Whatever is saved loads": the coordinator appends the plan's identity to its list on every
  accepted publication (`src/dist.cpp:186-190`), so a plan accepted twice is saved twice
  (`Persisting.AcceptedTwice`), and the decoder refuses such an image
  (`SavedPlans.SavedTwiceNeverLoads`). No plan is saved twice exactly when no identity that is still
  retained is on the list twice (`Persisting.SavedOnce`).
- "A store of at most sixteen frames can be saved": the ceiling is computed in 32 bits
  (`src/store.cpp:345`), and at the largest frame limit that validation admits, 2^28 bytes
  (`src/graph.cpp:688`), it wraps to 0 and nothing is ever saved
  (`PlanStore.NothingEncodesAtLargestFrame`). The ceiling is sixteen frames exactly below that limit
  (`PlanStore.CeilingIsSixteenFrames`).
- "An unchanged watermark means nothing changed" holds up to the wrap-around of the 64-bit sequence
  (`Watermark.WrapHidesChanges`, `Watermark.ComparisonModuloWrap`).

## Reading guide

Identities are byte strings ordered bytewise; the model uses the natural numbers those bytes spell,
bounded by their width (`Values.dfy`). Integer widths that matter (64-bit costs, 32-bit hop bounds, the
64-bit watermark, the 32-bit payload ceiling) are written out.

`View.dfy` and `Order.dfy` define walks and the canonical order; `Tight.dfy` has the greedy-walk
argument both searches share; `Expanded.dfy`, `Plain.dfy` and `Search.dfy` are the searches.
`YenSpec.dfy` states what the enumeration keeps true, `YenProof.dfy` proves the steps, `Yen.dfy` is the
loop. `Least.dfy` shows that answers exist, and `TransitLaws.dfy` says what required transit does in
terms of walks alone. `Eligibility.dfy`, `ViewBuild.dfy`, `Candidates.dfy` and `Planning.dfy` go from
the snapshot to candidates, `Effort.dfy` and `Sizing.dfy` account for the work budget, and
`Corridor.dfy` runs planning on a concrete fabric. `Meaning.dfy` ties eligibility and price to the
decoded request. `Coordinator.dfy` has the sections, `CoordinatorRuns.dfy` every sequence of them. In
`RequestCodec.dfy` and `PlanStore.dfy` every section of the format has `Put` (the bytes it adds in front
of what follows), `Get` (what the strict reader makes of them), two lemmas `...Round` and `...Back` that
make them inverse, and the methods that write and read it. `Images.dfy` writes out one request and one
saved plan in bytes, `Sha256Vector.dfy` one digest.

## Model

| member | source | states |
|---|---|---|
| Queue.Pop | src/search.cpp:18-29 | the priority queue gives up a least entry by (cost, hops, node) and keeps the rest |
| Queue.WorkBudget.SpendState | src/search.cpp:219-227 | a state is paid for while any is left; running out is recorded, and only then |
| Queue.WorkBudget.SpendPush | src/search.cpp:229-237 | the same for queue pushes |
| Queue.WorkBudget.SpendSpur | src/search.cpp:823-830 | the same for spur searches |
| Order.BeforeTotal | src/search.cpp:55-82 | the canonical order is total on paths |
| Order.BeforeTransitive | src/search.cpp:55-82 | and transitive |
| Order.BeforeAsymmetric | src/search.cpp:55-82 | and asymmetric, hence there is one canonical minimum |
| Order.BeforeJoin | src/search.cpp:846-852 | a shared root can be cancelled from a comparison, so the best spur gives the best total |
| Order.AnswerUnique | src/search.hpp:67-78 | two canonical answers to one question are the same answer |
| Ranking.RankedBefore | src/search.cpp:55-82 | comparing by node and link identities decides the canonical order on view indices |
| Ranking.SameLinkSameEntry | src/search.cpp:74-80 | between the same nodes, entry order is link identity order |
| Tight.CutLoop | src/search.cpp:264-419 | cutting a loop out of a walk keeps it eligible, shorter and no dearer |
| Tight.GreedyIsCanonical | src/search.cpp:384-418 | a tight walk that leads all tight walks is the canonical minimum of all eligible paths |
| Expanded.Labels | src/search.cpp:436-496 | hop-expanded labels are exact: the least cost at every node for every exact hop count |
| Expanded.BestDestination | src/search.cpp:498-512 | the destination level chosen has the least (cost, hops) label |
| Expanded.MarkReachable | src/search.cpp:514-550 | the backward pass marks exactly the states from which a tight walk reaches the destination |
| Expanded.GreedyWalk | src/search.cpp:552-592 | the forward walk stays on the leading tight walk to the end |
| Expanded.ExpandedSearch | src/search.cpp:421-593 | without a resource limit: a path is found iff an eligible one exists, and it is simple and before all others |
| Plain.Labels | src/search.cpp:264-330 | lexicographic (cost, hops) labels are exact, zero-cost edges included, when the hop bound cannot bind |
| Plain.Buckets | src/search.cpp:336-342 | nodes are grouped by the hop count of their label |
| Plain.MarkReachable | src/search.cpp:344-375 | the backward pass marks exactly the nodes from which a tight walk reaches the destination |
| Plain.GreedyWalk | src/search.cpp:381-418 | the forward walk stays on the leading tight walk to the end |
| Plain.PlainSearch | src/search.cpp:264-419 | without a resource limit: the same canonical answer as the expanded search promises |
| Search.ShortestPath | src/search.cpp:239-262 | the answer is canonical in every mode; a resource limit is reported only when the funds could fall short of one search, which spends no more than its bound |
| Search.AnswerDetermined | src/search.cpp:239-262 | the answer depends on the question alone |
| Search.ModesAgree | src/search.cpp:254-261 | with a hop bound of at least V - 1 both searches return the same path |
| Search.SlackBoundIsNoBound | src/search.cpp:254-261 | every bound of at least V - 1 asks the same question as no bound |
| Search.SimplestVersion | src/search.cpp:264-419 | every eligible walk contains a simple eligible path that does not come after it, with fewer hops when it differs |
| Least.LeastEligible | src/search.cpp:264-419 | among eligible walks there is a first one: no infinite descent in the canonical order |
| Least.AnswerExists | src/search.cpp:264-419 | so wherever an eligible walk exists a canonical answer exists |
| Sizing.ViewSize | src/planning_view.cpp:254-268 | a view has no more nodes and entries than its snapshot has nodes and edges |
| Sizing.WellFundedIsEnough | src/search.cpp:219-237 | limits sized by the snapshot alone are enough: no call ends for want of budget |
| Effort.OneSearch | src/search.cpp:239-262 | either kind of search spends at most nodes times entries states and one push more |
| BanSets.BanSet.AddNode | src/search.cpp:90-93 | adds exactly this node to the set the vectors stand for |
| BanSets.BanSet.AddEntry | src/search.cpp:95-98 | adds exactly this entry |
| BanSets.BanSet.Normalize | src/search.cpp:100-109 | sorting and deduplicating keeps the set |
| BanSets.BanSet.NodeBanned | src/search.cpp:111-114 | membership, whatever the insertion order |
| BanSets.BanSet.EntryBanned | src/search.cpp:116-119 | membership, whatever the insertion order |
| Yen.ContainsRawPath | src/search.cpp:603-610 | linear search for the same raw path |
| Yen.BuildSpurBans | src/search.cpp:810-822 | the ban set holds the root's nodes and the entries taken by accepted paths with the same node root |
| Yen.SpurHops | src/search.cpp:809-864 | a spur search at every hop of the last accepted path keeps the invariant and covers everything that path serves |
| Yen.SpurHop | src/search.cpp:809-864 | one spur search keeps the cover invariant: everything served at this hop is covered by a pending path |
| Yen.BestPending | src/search.cpp:868-873 | the chosen pending path comes before or equals all others |
| Yen.YenPaths | src/search.cpp:782-876 | first routes in canonical order at every moment; a missed route is shadowed or comes after a full list; a limit is reported only when the funds could fall short of all its searches |
| YenProof.FullIsFirst | src/search.cpp:806-876 | when the list is full, every missed route is shadowed or comes after its last path |
| YenProof.ExhaustedIsFirst | src/search.cpp:865-867 | when nothing is pending, a route is missed exactly when it is shadowed |
| YenProof.NextRound | src/search.cpp:868-876 | moving the best pending path to the list keeps the invariant and the order |
| YenProof.TotalIsNew | src/search.cpp:856-858 | a spur path is never already accepted |
| YenSpec.NodeRootIsLinkRoot | src/search.cpp:815-822 | without parallel entries equal node roots are equal link roots |
| YenSpec.NoParallelNoMeeting | src/search.cpp:815-822 | without parallel entries no two routes meet at a node over different links |
| YenSpec.NoMeetingNoShadow | src/search.cpp:815-822 | where no routes meet, nothing is shadowed |
| YenSpec.ShadowMeets | src/search.cpp:815-822 | a shadowed route meets the route that shadows it |
| YenSpec.ShadowedIsMissed | src/search.cpp:815-822 | a shadowed route is not listed |
| YenSpec.ExactWhereNoRoutesMeet | src/search.cpp:782-876 | the first min(K, all) routes in canonical order, none missing, none twice |
| YenSpec.ExactWithoutParallelLinks | src/search.cpp:782-876 | so without parallel links too |
| LostPath.LostRoutesExist | src/search.cpp:815-822 | with parallel links on two consecutive hops two routes are never listed |
| LostPath.NeverListed | src/search.cpp:782-876 | run on that fabric, whatever K and the budget are, the enumeration never lists them |
| PathCosts.AccumulatePathCost | src/path.cpp:136-184 | itemised total and parts, or nothing exactly on more than 65535 hops or overflow |
| PathCosts.ComputeRawPathCost | src/search.cpp:136-148 | the itemised cost of a walk, part by part, or nothing exactly on too many hops or overflow |
| PathCosts.CheckedCostExact | src/search.cpp:38-40 | the checked running sum overflows exactly when the exact sum does |
| PathCosts.ItemisedIsCost | src/planning_view.cpp:492-517 | per-hop increments with resolved penalties add up to the itemised total |
| PathCosts.CostAgreement | src/path.cpp:136-184 | search sum and itemised total agree, and one overflows iff the other does |
| MixedRadix.DigitsOfNumber | src/search.cpp:670-677 | every selection of alternatives is met, under its number |
| MixedRadix.NumberOfDigits | src/search.cpp:670-677 | and under no other number |
| MixedRadix.Selection | src/search.cpp:671-677 | the loop decodes a combination number |
| MixedRadix.QuotientTest | src/search.cpp:646-653 | the quotient test refuses exactly when the product would exceed the limit |
| Transit.CountCombinations | src/search.cpp:637-666 | accepts exactly non-empty stages within both limits and returns the exact product |
| Transit.NextStage | src/search.cpp:685-722 | reached iff some walk leads on to the stage within what is left of the hop bound, and then along the first such walk; blocked exactly when none does or the bound is spent |
| Transit.StagedLegs | src/search.cpp:679-726 | the concatenation of all legs of one combination, or nothing exactly when some leg is missing |
| Transit.Finish | src/search.cpp:727-763 | complete iff some walk leads on to the destination within the hop bound and the whole is countable, and then along the first such walk; it fails exactly otherwise |
| Transit.TransitPath | src/search.cpp:630-777 | the first, over all choices of alternatives, of the routes made by going on along the first walk to each stage and to the destination, said without leg budgets or bans; a limit only when the funds could fall short of all its searches |
| Transit.AnswerLaw | src/search.cpp:630-777 | the minimum over successful combinations is that first staged route |
| Transit.AnswerMeetsStages | src/search.cpp:624-628 | a transit answer is a route that comes by one alternative of every stage, in order |
| Transit.TransitAnswerUnique | src/search.cpp:624-628 | the result does not depend on the enumeration order |
| TransitSpec.StagedSound | src/search.cpp:679-726 | staged paths are simple walks within the bound; the budget subtraction never underflows |
| TransitSpec.OutcomeIsRoute | src/search.cpp:727-763 | a completed combination is a route that visits the chosen nodes in order |
| TransitSpec.LegIs | src/search.cpp:697-717 | the leg to an identity is determined by the search answer |
| TransitLaws.OnwardCompletes | src/search.cpp:737-763 | what carries a path on to the destination is what completes it to a route of the query |
| TransitLaws.NextLegLaw | src/search.cpp:697-722 | the leg to a stage is the canonically first walk on from the end of the path that comes by no used node and keeps the whole within the hop bound, and it is found exactly when such a walk exists with a hop to spare |
| TransitLaws.StageReached | src/search.cpp:690-722 | where any walk leads on to a stage, the stage is reached iff the hop bound is not yet spent |
| TransitLaws.CompletedLaw | src/search.cpp:727-763 | the last leg is the first walk on to the destination, whatever was used before |
| TransitLaws.OutcomeLaw | src/search.cpp:679-763 | one choice of alternatives leads to exactly its staged route |
| TransitLaws.StagedAnswerUnique | src/search.cpp:624-628 | there is one first staged route |
| Domains.MembershipOf | src/graph.cpp:215-228 | exactly the published domains of a subject, in order; known iff published or complete |
| Domains.SubjectsDiffer | include/pathplanner/graph.hpp:42-59 | nodes, links and ports never share a subject key |
| Domains.Increment | src/search.cpp:167-178 | the sorted counter vector holds exact counts after one more domain |
| Domains.CountIsHops | src/search.cpp:150-181 | the counter of a domain is the number of links of the path in that domain |
| Domains.MemberLimitCompliant | src/search.cpp:150-181 | true iff no domain is on more than the limit of links and no unknown membership fails closed |
| Enumeration.KeepCompliant | src/search.cpp:880-892 | keeps, in order, the compliant paths among those looked at, and stops at K |
| Enumeration.Enumerate | src/search.cpp:782-909 | the first K acceptable paths of a listing as long as the ceiling allows; where no routes meet, what is not listed comes after a full listing; truncated iff the listing reached the ceiling with fewer than K kept |
| Enumeration.UnlistedAfter | src/search.cpp:782-876 | where no routes meet, a route that is not listed comes after all that are, and the listing is full |
| Fabric.Lookup | src/graph.cpp:120-134 | binary search finds exactly what is published under a key |
| Fabric.SortedViewIsPublished | src/graph.cpp:114-134 | sorting records with distinct keys changes no lookup |
| Fabric.FindNode | src/graph.cpp:280-287 | finds exactly the node with this identity |
| Fabric.BindingsDiffer | src/graph.cpp:120-134 | capability bindings of different subjects or capabilities never share a key |
| Eligibility.CapabilitySatisfied | src/planning_view.cpp:189-202 | satisfied iff a value is published that is at least, at most or equal to the value asked for, as the comparator says; unknown and insufficient are told apart |
| Eligibility.SatisfiedBy | src/request.cpp:29-37 | the three comparisons |
| Eligibility.FailureDomainCompliant | src/planning_view.cpp:204-230 | compliant iff no published domain or its class is forbidden and an unknown membership does not fail closed; otherwise the code of the first reason |
| Eligibility.EvaluateNode | src/planning_view.cpp:43-78 | kept iff the node meets every hard constraint on nodes; otherwise the code of the first it breaks |
| Eligibility.StatesUsable | src/planning_view.cpp:353-453 | true iff link and both port states are usable under the policy |
| Eligibility.LinkStateUsable | src/planning_view.cpp:353-397 | a link state is usable exactly under the flag that allows it, and the degraded mark is exact |
| Eligibility.PortStateUsable | src/planning_view.cpp:399-453 | so is a port state |
| Eligibility.ResolveCost | src/planning_view.cpp:492-517 | the traversal cost with its penalties, or nothing exactly on overflow |
| Eligibility.EvaluateEdge | src/planning_view.cpp:320-518 | kept iff the edge meets every hard constraint, with its exact cost and flags |
| ViewBuild.IndexNodes | src/planning_view.cpp:254-268 | view order is identity order over exactly the eligible nodes |
| ViewBuild.CollectEdges | src/planning_view.cpp:314-528 | one pending entry for every eligible edge and no other |
| ViewBuild.SortOrdered | src/planning_view.cpp:530-541 | the sort leaves entries strictly ordered by (source, destination identity, link identity) |
| ViewBuild.CountOffsets | src/planning_view.cpp:543-549 | counting and prefix sums give the number of entries below each node |
| ViewBuild.SliceIs | src/planning_view.cpp:543-553 | slice u holds exactly the entries that leave node u |
| ViewBuild.CutExact | src/planning_view.cpp:530-553 | the view holds exactly the eligible edges, each in its source's slice, each once |
| ViewBuild.BuildPlanningView | src/planning_view.cpp:232-556 | a fatal finding iff there are too many nodes, an end is not eligible or an end capability is missing, with its code; otherwise a valid view of exactly the eligible nodes and edges, with the two ends indexed |
| Candidates.IsWellFormed | src/path.cpp:29-53 | true iff ends, chaining, layers and identities fit |
| Candidates.IsSimple | src/path.cpp:56-63 | true iff no node repeats |
| Candidates.BuildCandidatePath | src/search.cpp:183-214 | a walk of the view becomes a well-formed candidate over eligible nodes and edges, simple iff the walk is |
| Candidates.CompareCanonicalPaths | src/path.cpp:186-210 | lexicographic by node identities, then by link identities |
| Candidates.RanksBefore | src/path.cpp:212-220 | total cost, then hops, then the canonical comparison |
| Candidates.RanksAreCanonical | src/path.cpp:186-220 | ranking candidates by identities is the canonical order of the raw paths they show |
| Candidates.DepictsOnce | src/search.cpp:183-214 | a candidate path shows one raw path only |
| Candidates.PriceIsCost | src/search.cpp:136-148 | the price of a lawful candidate is the itemised cost of the raw path it shows |
| Candidates.RawOf | src/search.cpp:183-214 | every lawful well-formed candidate path is shown by a walk of the view |
| Candidates.ShowPath | src/search.cpp:183-214 | every walk of the view is shown by a lawful well-formed candidate path |
| Planning.BuildCandidates | src/planner.cpp:616-628 | each raw path is shown with its price; on a view of at most 65536 nodes the re-check discards nothing |
| Planning.FitsIsRequested | src/planner.cpp:557-642 | a route fits the request exactly when the candidate path it shows is requested |
| Planning.TriedIs | src/planner.cpp:606-608 | how many routes are tried: K, and with a member limit the larger of K and the configured maximum |
| Planning.PickedIsFirst | src/planner.cpp:616-642 | what the enumeration picks is shown by the first candidates that meet the member limit among all that were looked at |
| Planning.RestIsListed | src/planner.cpp:557-642 | a requested path that was not looked at ranks after everything that was, and enough was looked at |
| Planning.ListedLeavesNothing | src/planner.cpp:557-642 | so a requested path that is not returned ranks after all that are, and the list is full or at least max(K, max_enumeration_candidates) paths that meet the rest of the request rank before it |
| Planning.PlanCandidates | src/planner.cpp:557-642 | every candidate meets the request end to end, member limit or stages, end capabilities and price included; they are in ranking order without repetition; without parallel eligible links nothing requested ranks before them, and a requested path is left out only behind a full list or, under a member limit, behind at least max(K, max_enumeration_candidates) paths that meet the rest of the request; with transit the answer is the first staged route; a limit only when underfunded |
| Planning.LimitPlaysNoPart | src/search.cpp:630-777 | with required transit the answer does not depend on the member limit |
| Corridor.PlanAcross | src/planner.cpp:575-578 | run on three nodes in a row without a hop bound, planning returns exactly the two-hop candidate |
| Corridor.PlanGuarded | src/search.cpp:630-777 | run with required transit and a member limit of one, planning returns a candidate that breaks the limit |
| Corridor.PlanStaying | src/search.cpp:690-694 | run with the stage at the source and a hop bound of zero, planning returns nothing although the path without hops meets the request |
| Intake.ResolveEndpoint | src/planner.cpp:389-426 | resolved iff an endpoint with this class and generation is published; otherwise the first of unknown, other class, other generation |
| Intake.Admit | src/planner.cpp:463-545 | admitted iff valid, authorized, as expected of the snapshot and with both endpoints resolved; refused with the first reason that holds |
| Intake.PlanPayload | src/planner.cpp:444-642 | bytes of a request to candidates that request asked for, in ranking order and never more than asked for; anything else is refused; without transit and parallel eligible links a requested path that is not returned ranks after all that are, with a reason |
| Intake.ForbiddenStaysOut | src/planning_view.cpp:320-350 | what the decoded request forbids by name is on no candidate |
| Intake.StagesAdmitted | src/search.cpp:637-666 | for a valid request only the number of alternatives and combinations can refuse required transit |
| RequestMeaning.NodeMeaning | src/planning_view.cpp:43-78 | a node is eligible iff it is published, not forbidden, serves every node requirement with the comparison asked for, and no failure domain or class is against it |
| RequestMeaning.EdgeMeaning | src/planning_view.cpp:320-518 | an edge is eligible iff layer, identities, states of link and ports under the flags of the policy, capabilities with their comparisons, failure domains and cost allow it, each said of the decoded request |
| RequestMeaning.HopMeaning | src/search.cpp:183-214 | a hop is lawful iff it is such an edge, field by field, with its published state |
| RequestMeaning.LimitMeaning | src/search.cpp:150-181 | the member limit counts the hops whose link a domain is published for |
| RequestMeaning.StagesMeaning | src/search.cpp:624-628 | stages are met iff the path comes by one alternative of each, in order |
| RequestMeaning.RequestMeans | src/planning_view.cpp:232-556 | a path is requested iff it meets every field of the decoded request |
| RequestMeaning.PriceMeans | src/path.cpp:136-184 | the price is hop count, static costs, degraded hops and hops out of the locality scope, each times what the request charges for it |
| RequestMeaning.EndsMean | src/planning_view.cpp:296-309 | end capabilities are kept iff the source serves the source requirements and the destination those for it |
| RequestMeaning.AnswerMeans | src/planner.cpp:444-642 | every candidate meets the decoded request field by field, at the price the request sets |
| RequestMeaning.OthersRankAfter | src/planner.cpp:557-642 | a path that meets the decoded request and is not returned ranks after all that are, for one of the two reasons |
| Structural.Distance | src/planner.cpp:126-142 | breadth-first search gives the exact minimum hop count, or nothing iff unreachable |
| Structural.WalksAreLonger | src/planner.cpp:126-142 | a walk no longer than the head's distance ends at a node already that close |
| Structural.StructuralHopDistance | src/planner.cpp:83-143 | the exact minimum over structural edges between two nodes of the snapshot |
| Structural.NoEligiblePathIsShorter | src/planner.cpp:731-746 | a structural distance above the hop bound proves that no eligible path fits |
| ReverseIndex.CollectPlanDependencies | src/result.cpp:83-98 | exactly the nodes, links and ports of the candidates, sorted, each once |
| ReverseIndex.PushStep | src/planner.cpp:276-277 | one more index entry, counted once |
| ReverseIndex.RemoveStep | src/planner.cpp:284-297 | exactly this entry goes, and the count follows |
| ReverseIndex.CompleteHasRoom | src/planner.cpp:268-279 | a complete index within its ceiling means that the dependencies of all plans fit it |
| ReverseIndex.NoRoom | src/planner.cpp:272-275 | an index at its ceiling that lacks an entry means that they do not |
| Runtime.ClassifyEvidence | src/graph.cpp:251-275 | the most severe of the dimensions that moved, in the order of the program, and current without any |
| Runtime.WorstIsOne | src/graph.cpp:251-275 | no two verdicts are equally severe, so the most severe finding is one |
| Runtime.PlannerRuntime.constructor | src/planner.cpp:325-334 | an empty runtime at sequence 0 |
| Runtime.PlannerRuntime.PublishSnapshot | src/planner.cpp:338-346 | the watermark moves and the snapshot and its epoch are taken over |
| Runtime.PlannerRuntime.AdvanceEpoch | src/planner.cpp:953-972 | only a greater epoch is taken; conservative recovery leaves every plan to be revalidated |
| Runtime.PlannerRuntime.IndexPlan | src/planner.cpp:268-279 | the index covers the plan too, or is given up; a complete index is given up exactly when the dependencies of all plans no longer fit its ceiling |
| Runtime.PlannerRuntime.UnindexPlan | src/planner.cpp:281-298 | no entry of the plan is left, everything else stays, the counter is exact |
| Runtime.PlannerRuntime.Retain | src/planner.cpp:817-847 | overwrites in place, or evicts the oldest until one fits; the plan kept is current iff its currentness is proven and to be revalidated otherwise; every retained plan is in the order once; a complete index stays complete iff the dependencies of the retained plans fit its ceiling |
| Runtime.PlannerRuntime.Affected | src/planner.cpp:894-924 | the plans reached are exactly those a scan would find, or all of them conservatively |
| Runtime.PlannerRuntime.ApplyInvalidation | src/planner.cpp:885-951 | the watermark moves; exactly the affected plans are marked, retired iff a subject is gone |
| Runtime.CollectedIsScan | src/planner.cpp:906-924 | collecting index rows is scanning the retained plans |
| Runtime.PlannerRuntime.Capture | src/planner.cpp:452-460 | the watermark and snapshot a planning call starts from |
| Runtime.PlannerRuntime.ComparePublish | src/planner.cpp:777-798 | candidates keep their currentness only if watermark and snapshot are unmoved |
| Runtime.PlannerRuntime.CheckCurrentness | src/planner.cpp:974-1044 | the most severe of everything there is against the plan; current iff seven conditions hold, the captured sequence among them |
| Watermark.SequenceCountsChanges | src/planner.cpp:338-346 | over every run the watermark counts the changes modulo 2^64 |
| Watermark.ComparisonIsExact | src/planner.cpp:777-798 | the comparison passes iff nothing changed since the capture, short of a wrap-around |
| Watermark.ComparisonModuloWrap | src/planner.cpp:777-798 | without that bound: iff the count is a multiple of 2^64 and the snapshot is the captured one or none |
| Watermark.WrapHidesChanges | src/planner.cpp:777-798 | after exactly 2^64 invalidations the comparison passes: the bound is needed |
| Watermark.PassedForGood | src/planner.cpp:1036-1043 | a passed sequence does not come back |
| Watermark.PlanInterleaved | src/planner.cpp:444-798 | over every interleaving, a result with a current candidate means nothing changed between capture and comparison |
| Watermark.StaysStale | src/planner.cpp:974-1044 | a plan whose captured sequence has been passed is never found current again |
| Watermark.NeverCurrentUnproven | src/planner.cpp:817-847 | a plan kept without proof, as every plan from the store is, is never found current, whatever runs, until a proven plan is kept under its identity or it is evicted |
| Coordination.Coordinator.Accept | src/dist.cpp:732-743 | one more session, still to speak |
| Coordination.Coordinator.CheckHello | src/dist.cpp:399-415 | each verdict iff its reason: accepted only for a boot not fenced, with the captured epoch and snapshot |
| Coordination.Coordinator.Register | src/dist.cpp:428-439 | the registration and the session's role and boot are set together |
| Coordination.Coordinator.BeginPublication | src/dist.cpp:454-463 | the snapshot the boot registered with is looked up |
| Coordination.Coordinator.ValidatePublication | src/dist.cpp:321-345 | each verdict iff its reason: Ok iff not fenced, registered, of the current epoch, and with a snapshot in force that is the one registered with; only then is the pass recorded |
| Coordination.Coordinator.CompletePublication | src/dist.cpp:466-494 | an open slot is completed with the verdict, the payload only on Ok; a ready slot is left alone |
| Coordination.Coordinator.Dispatch | src/dist.cpp:575-614 | the first free worker session (live, registered, not fenced, nothing outstanding) takes the request, or there is none and the slot reports it |
| Coordination.Coordinator.RelayFailed | src/dist.cpp:623-628 | the slot reports that the worker is not writable |
| Coordination.Coordinator.Collect | src/dist.cpp:634-659 | verdict or bound exceeded; the slot goes and nothing keeps the request outstanding; an Ok payload passed validation |
| Coordination.Coordinator.ReleaseSession | src/dist.cpp:347-370 | session loss fences the boot and completes the outstanding request |
| Coordination.Coordinator.FenceWorker | src/dist.cpp:891-917 | a registered boot is fenced for good; success is reported iff the last session of that boot still has its socket |
| Coordination.Coordinator.AdvanceEpoch | src/dist.cpp:844-865 | a greater epoch forgets all registrations and fences exactly the boots of worker sessions |
| Coordination.Coordinator.RaiseEpoch | src/dist.cpp:881-889 | the epoch never goes back |
| Coordination.LossCompletesAll | src/dist.cpp:347-370 | no open slot without an owner means no slot stays open once every worker session is released |
| Coordination.Coordinator.Close | src/dist.cpp:707-711 | the socket goes after the release |
| CoordinatorRuns.PerformAll | src/dist.cpp:678-713 | over every run of sections the log only grows, by fences and by publications of the epoch in force, and every accepted answer passed validation |
| CoordinatorRuns.FencedNeverPasses | src/dist.cpp:321-345 | whatever runs after a fence, no publication of that boot passes |
| CoordinatorRuns.AdvancedNeverPasses | src/dist.cpp:844-876 | whatever runs after an epoch advance, no publication of an earlier epoch or of a worker session of that time passes |
| CoordinatorRuns.InForceSince | src/dist.cpp:881-889 | the snapshot in force is the one last put there |
| CoordinatorRuns.SupersededNeverPasses | src/dist.cpp:321-345 | whatever runs after a snapshot is replaced, nothing made for another snapshot passes unless that one is put in force again |
| CoordinatorRuns.OneRequest | src/dist.cpp:446-494 | one request through one worker: the payload arrives with the snapshot still in force, a mismatch after it was replaced |
| CoordinatorRuns.RunFromStart | src/dist.cpp:347-370 | after any run from the start, what passed was made for the epoch and snapshot then in force by a registered boot, accepted answers passed validation, and once every worker session is released no slot is open |
| Persisting.SavedOnce | src/dist.cpp:218-232 | no plan is saved twice iff no identity still retained is on the list twice |
| Persisting.AcceptedTwice | src/dist.cpp:186-190 | a plan accepted twice is kept once and saved twice |
| Bytes.VarExact | src/canonical.cpp:53-59 | the reader accepts exactly the shortest unsigned LEB128 form (section 7.6 of DWARF 5) of every 64-bit number |
| Bytes.LeExact | src/canonical.cpp:41-51 | little-endian integers round-trip in both directions |
| Bytes.BeExact | src/canonical.cpp:66-66 | fixed-width identities round-trip in both directions |
| Bytes.BoolExact | src/canonical.cpp:190-200 | a flag is 0 or 1 and nothing else |
| Bytes.ByteWriter.PutByte | src/canonical.cpp:12-21 | a byte arrives, or the ceiling was hit and stays hit |
| Bytes.ByteWriter.Put | src/canonical.cpp:23-32 | the same for a run of bytes |
| Bytes.ByteWriter.Little | src/canonical.cpp:36-51 | the loop writes the little-endian form |
| Bytes.ByteWriter.VarU64 | src/canonical.cpp:53-59 | the loop writes the shortest form |
| Bytes.ByteReader.Little | src/canonical.cpp:98-135 | the loop reads what the little-endian form says, or fails short; a failed reader answers nothing and stays where it is |
| Bytes.ByteReader.VarU64 | src/canonical.cpp:137-163 | the loop accepts exactly what the shortest form allows; a failed reader answers nothing and stays where it is |
| Wire.FieldsRound | src/proto.cpp:13-68 | every field read back is the field written |
| Wire.FieldsBack | src/proto.cpp:13-68 | bytes a field was read from are the bytes it is written as |
| Wire.ManyRound | src/proto.cpp:515-533 | repeated fields round-trip one way |
| Wire.ManyBack | src/proto.cpp:515-533 | and the other |
| RequestCodec.ValidateRequest | src/request.cpp:169-217 | true iff the request meets every rule of validation |
| RequestCodec.ValidateConstraintSet | src/request.cpp:55-146 | true iff the constraint set does |
| RequestCodec.PlanningRequestRound | src/proto.cpp:536-766 | a request whose fields are admissible reads back from its bytes |
| RequestCodec.PlanningRequestBack | src/proto.cpp:404-493 | bytes read as a request are the bytes of that request |
| RequestCodec.PayloadExact | src/proto.cpp:404-493 | for a valid request, a byte string is its payload iff it reads as that request |
| RequestCodec.PayloadInjective | src/proto.cpp:404-493 | different valid requests have different payloads |
| RequestCodec.EncodePlanningRequestPayload | src/proto.cpp:404-493 | the canonical payload, or nothing exactly when it exceeds the ceiling |
| RequestCodec.DecodePlanningRequestPayload | src/proto.cpp:536-766 | accepts exactly the payloads of valid requests and returns that request; a valid payload with more bytes after it is told apart |
| ResourceLimits.ValidateLimits | src/graph.cpp:677-710 | true iff the limits are coherent |
| Images.Small | src/canonical.cpp:36-68 | small numbers in bytes: integers least significant first, identities most significant first |
| Images.DigitAt | src/canonical.cpp:36-68 | byte i of a number is its digit i to the base 256 |
| Images.RequestImage | src/proto.cpp:404-493 | one request, every field of its own value, in bytes |
| Images.FlagsImage | src/proto.cpp:404-493 | the five policy flags, one byte each, in order |
| Images.RecordImage | src/store.cpp:336-412 | one saved plan, every field of its own value, in bytes |
| Images.HeaderImage | src/store.cpp:336-412 | the header of a store: letters, versions, count, length |
| Images.PathImage | src/path.cpp:65-83 | the bytes a path identity is made from |
| Images.SemanticImage | src/result.cpp:10-33 | the bytes a plan digest is made from |
| Images.SavedAs | src/store.cpp:278-298 | which field of a planned candidate is saved under which field of a record |
| Sha256Spec.ZeroCountIsLeast | src/sha256.cpp:147-152 | the padding is the shortest that leaves eight bytes for the length |
| Sha256Spec.PaddingTells | src/sha256.cpp:145-160 | below 2^61 bytes no two messages are padded alike |
| Sha256Vector.VectorAbc | tests/core_tests.cpp:578-579 | the digest of "abc" is the published one, all 64 rounds with their constants |
| Sha256Vector.HashAbc | src/sha256.cpp:169-179 | and the stream gives it however the message is cut up |
| Sha256Stream.Sha256.constructor | src/sha256.cpp:62-62 | a fresh hasher has been fed nothing |
| Sha256Stream.Sha256.Transform | src/sha256.cpp:64-114 | the in-place compression is the compression of FIPS 180-4, section 6.2.2 |
| Sha256Stream.Sha256.Update | src/sha256.cpp:116-138 | what has been fed grows by the data, whatever was buffered |
| Sha256Stream.Sha256.FeedZeros | src/sha256.cpp:149-152 | the padding loop ends, with eight bytes of the block left |
| Sha256Stream.Sha256.Finish | src/sha256.cpp:145-167 | the digest is the hash of everything fed |
| Sha256Stream.HashChunks | src/sha256.cpp:169-179 | however a message is cut into chunks, the digest is the hash of the message |
| PlanStore.ReadPath | src/store.cpp:124-189 | accepts exactly encodings of well-formed simple paths within the hop limit |
| PlanStore.ReadCost | src/store.cpp:202-245 | accepts exactly costs that add up and count no more penalties than hops |
| PlanStore.PathSize | src/path.cpp:65-92 | a path's encoding always fits the ceiling its digest is made under |
| PlanStore.SemanticSize | src/result.cpp:35-43 | so does the semantic encoding of a plan |
| PlanStore.ComputePathId | src/path.cpp:94-100 | the identity is the first sixteen bytes of the hash of the encoding |
| PlanStore.ComputeSemanticDigest | src/result.cpp:35-43 | the digest is the hash of the semantic encoding, byte for byte |
| PlanStore.CheckRecord | src/store.cpp:517-568 | ranks, hop counts, generation bound, distinct candidates, ordered totals and digest all hold |
| PlanStore.EncodePlanStore | src/store.cpp:336-412 | an image of the records, or nothing exactly on incoherent limits, a refused record or the ceiling as it is computed in 32 bits |
| PlanStore.CeilingIsSixteenFrames | src/store.cpp:345-345 | the ceiling is sixteen frames iff the frame limit is below the largest admitted |
| PlanStore.NothingEncodesAtLargestFrame | src/store.cpp:345-345 | at the largest frame limit no record set fits the wrapped ceiling |
| PlanStore.DecodePlanStore | src/store.cpp:414-576 | accepts exactly the images of record sets a store can hold, and returns those records |
| PlanStore.ImageExact | src/store.cpp:414-576 | every image of such a set parses to it and nothing else parses |
| PlanStore.ImageTells | src/store.cpp:336-412 | different record sets have different images |
| PlanStore.RefusesTheRest | src/store.cpp:414-576 | the image of a set a store cannot hold parses as nothing |
| PlanStore.SaveAndLoad | src/store.cpp:336-576 | what is saved loads back as it was when the set is one a store can hold, and as nothing when it is not |
| SavedPlans.StoredPathRestores | src/store.cpp:175-181 | a well-formed path comes back up to observed link state and degraded flag |
| SavedPlans.PlannedRecordLoads | src/planner.cpp:644-669 | a planned record passes the decoder's checks iff no candidate exceeds the configured hop maximum and no path identities collide |
| SavedPlans.RecordRestores | src/store.cpp:278-330 | a plan comes back from its record up to observed link state |
| SavedPlans.PlannedStoreLoads | src/store.cpp:414-576 | records of planned plans form a set a store can hold iff hop maximum kept, no plan twice and no identities collide |
| SavedPlans.SaveAndRestore | src/store.cpp:336-576 | planned, saved and loaded: the same plans up to observed link state exactly under that condition, otherwise nothing |
| SavedPlans.PlanSaveRestore | src/planner.cpp:444-669 | one request planned, saved and loaded, under the same condition |
| SavedPlans.BoundedPlansKeepMaximum | src/request.cpp:137-140 | a hop bound in the request is enough for the hop maximum to be kept |
| SavedPlans.PlannedBeyondMaximum | src/planner.cpp:575-578 | planned across three nodes without a hop bound, the plan is the two-hop candidate, saved unless the ceiling wrapped, and never loaded under a one-hop maximum |
| SavedPlans.SavedTwiceNeverLoads | src/store.cpp:557-560 | an image with one plan twice is encoded and refused by the decoder |
| SavedPlans.LongNeverLoads | src/store.cpp:124-150 | an image with a path longer than the maximum is refused by the decoder |

## Left out

- Sockets, threads, timeouts, condition variables, file writes and atomic rename: foreign calls. The coordinator's receive bound is a parameter of `Coordination.Coordinator.Collect`.
- Standard library containers: the priority queue is a list from which a least entry is taken, `std::sort` is an insertion sort, hash maps are maps.
- Hop-expanded labels are rows of a table where the program uses one flat array with a computed index.
- A search takes the banned nodes and entries as a set value; the mutable, lazily sorted ban set (`BanSets`) builds that value in `Yen.BuildSpurBans` and `Transit.BanUsed`.
- Explanation texts, and which rejection of an edge is logged: whether an edge is kept is exact, why it is not is not kept.
- Statistics counters, stage hooks, explanations, rejection logs and rejection text: they do not influence an answer.
- Transit.TransitPath: the failure code of the last combination that failed is carried along but not specified.
- Enumeration.Enumerate: the failure code of an empty result is carried along but not specified.
- RequestCodec.ValidateRequest: which broken rule is reported first is not stated.
- The overflow flag of a search outcome is carried along and used only to choose a failure code.
- A view of more than 65536 nodes: order and completeness of the enumeration are stated for views up to that size, because a path of more than 65535 hops has no cost.
- Adjacency entries carry the link identity and resolved costs where the program stores an edge index; `Candidates.FindEdge` resolves the link again.
- Distinct keys in the consumed link-state, port-state, capability and failure-domain views are assumed: the builder detects only adjacent duplicates.
- Sorting, deduplicating by digest and truncating candidates in `Plan`: the candidates are already in ranking order, pairwise different and at most K, so these steps change nothing unless two digests collide.
- Node attachments and port lists. For retained plans, "the subject is still present" is membership in a set of subjects.
- Path Authority callbacks.
- Retained plans: equal plan identities are taken to mean equal dependencies (the identity is a digest), a stated precondition of `Runtime.PlannerRuntime.Retain`.
- Terminality of RETIRED: an epoch advance with conservative recovery overwrites it, and so does the model.
- The generation counter per request, replanning and plan-to-plan comparison.
- Coordinator start and stop, snapshot queries, currentness queries and the worker process. A publication is not matched against the session the slot was dispatched to; the model follows the code in that.
- Frames, hello, result, error and query payloads: they repeat the request payload's construction. Malformed enumerators in memory cannot occur in the model because enumerations are bounded types.
- The other published SHA-256 vectors: `Sha256Vector` evaluates the definitions on one message; for every other message the stream is proved to compute those definitions.
- Text fields, hexadecimal text and 16-bit integers of the byte encoding.
- PlanStore.DecodePlanStore: the announced payload length is added to the header size exactly, where the program's 64-bit sum would wrap for lengths within 68 of 2^64. Checks on several candidates are made after the candidates are read, so only which error comes first differs; error codes are not kept.
- CLI, rendering, generators, adapters and benchmarks.
