/** The widths and ranges of the program's identities, scalars and enumerations, and its limits
    (include/pathplanner/ids.hpp, status.hpp, limits.hpp). */
module Values {
  const U32_RANGE: nat := 0x1_0000_0000
  const U64_RANGE: nat := 0x1_0000_0000_0000_0000

  const IDENTITY_SPACE: nat := U64_RANGE * U64_RANGE

  type u32 = x: nat | x < U32_RANGE
  type u64 = x: nat | x < U64_RANGE

  /** An identity is the number its 8, 16 or 32 bytes spell; 0 is nil. */
  type id8 = x: nat | x < U64_RANGE
  type id16 = x: nat | x < IDENTITY_SPACE
  type id32 = x: nat | x < U64_RANGE * U64_RANGE * (U64_RANGE * U64_RANGE)

  type EndpointClass = x: nat | 1 <= x <= 5 witness 1
  type PathLayer = x: nat | 1 <= x <= 4 witness 1
  type Relationship = x: nat | 1 <= x <= 4 witness 1
  type TransitKind = x: nat | 1 <= x <= 2 witness 1
  type CapabilityScope = x: nat | 1 <= x <= 5 witness 1
  type CapabilityComparator = x: nat | 1 <= x <= 3 witness 1
  type AuthorityMode = x: nat | 1 <= x <= 3 witness 1
  type PlanningMode = x: nat | 1 <= x <= 2 witness 1
  type EvidenceSource = x: nat | 1 <= x <= 3 witness 1
  type PlanStatus = x: nat | 1 <= x <= 15 witness 1
  type HopCount = x: nat | x <= 65535

  const EXACT: TransitKind := 1

  const EVERY_NODE: CapabilityScope := 1
  const EVERY_LINK: CapabilityScope := 2
  const EVERY_PORT: CapabilityScope := 3
  const SOURCE_NODE: CapabilityScope := 4
  const DESTINATION_NODE: CapabilityScope := 5

  const AT_LEAST: CapabilityComparator := 1
  const AT_MOST: CapabilityComparator := 2
  const EQUAL: CapabilityComparator := 3

  /** One stage of required transit. */
  datatype Stage = Stage(kind: TransitKind, alternatives: seq<id16>)

  /** One capability requirement. */
  datatype Requirement = Requirement(capability: id8, scope: CapabilityScope, comparator: CapabilityComparator, value: u64)

  datatype Generations = Generations(
    topology: u64, linkState: u64, ports: u64, capabilities: u64, failureDomains: u64, epoch: u64, policy: u64, constraints: u64)

  /** What a plan was made from. */
  datatype Evidence = Evidence(snapshot: id16, generations: Generations, source: EvidenceSource, publishSequence: u64)
}
