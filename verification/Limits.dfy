/** The configured limits and their coherence (include/pathplanner/limits.hpp; src/graph.cpp, ValidateLimits). */
module ResourceLimits {
  import opened Values

  datatype Limits = Limits(
    maxNodes: u32, maxEdges: u32, maxEndpoints: u32, maxPortsPerNode: u32,
    maxCandidatesPerRequest: u32, maxHops: u32, maxConstraintsTotal: u32, maxForbiddenIds: u32, maxRequiredIds: u32,
    maxRequiredAnySets: u32, maxMembersInAnySet: u32, maxTransitAlternatives: u32, maxTransitCombinations: u32,
    maxCapabilityRequirements: u32, maxForbiddenDomainClasses: u32,
    maxExpandedStates: u64, maxSpurSearches: u64, maxQueueEntries: u64, maxSearchStates: u64,
    maxRetainedPlans: u32, maxHistoryEntries: u32, maxExplanationEntries: u32, maxReverseDependencyEntries: u32,
    maxPersistedPlans: u32, maxEnumerationCandidates: u32,
    maxFrameBytes: u32, maxSessions: u32, maxConcurrentRequests: u32, maxWorkers: u32,
    receiveBoundMs: u32, sendBoundMs: u32, connectBoundMs: u32)

  const MAX_CANDIDATE_RANK: nat := 4095
  const LARGEST_FRAME: nat := 0x1000_0000

  /** The configurations that are not refused as incoherent. */
  ghost predicate Coherent(l: Limits) {
    && l.maxNodes > 0 && l.maxEdges > 0 && l.maxEndpoints > 0 && l.maxPortsPerNode > 0
    && 1 <= l.maxCandidatesPerRequest <= 4095
    && 1 <= l.maxHops <= 65535
    && 64 <= l.maxFrameBytes <= 268435456
    && l.maxSessions > 0 && l.maxWorkers > 0 && l.maxConcurrentRequests > 0
    && l.receiveBoundMs > 0 && l.connectBoundMs > 0 && l.sendBoundMs > 0
    && l.maxExpandedStates > 0 && l.maxSpurSearches > 0 && l.maxQueueEntries > 0
    && l.maxRetainedPlans > 0 && l.maxHistoryEntries > 0 && l.maxExplanationEntries > 0
    && l.maxConstraintsTotal > 0 && l.maxForbiddenIds > 0 && l.maxRequiredIds > 0
    && l.maxRequiredAnySets > 0 && l.maxMembersInAnySet > 0
  }

  method ValidateLimits(l: Limits) returns (coherent: bool)
    ensures coherent <==> Coherent(l)
  {
    if l.maxNodes == 0 || l.maxEdges == 0 || l.maxEndpoints == 0 || l.maxPortsPerNode == 0 {
      return false;
    }
    if l.maxCandidatesPerRequest == 0 || l.maxCandidatesPerRequest > MAX_CANDIDATE_RANK {
      return false;
    }
    if l.maxHops == 0 || l.maxHops > 65535 {
      return false;
    }
    if l.maxFrameBytes < 64 || l.maxFrameBytes > LARGEST_FRAME {
      return false;
    }
    if l.maxSessions == 0 || l.maxWorkers == 0 || l.maxConcurrentRequests == 0 {
      return false;
    }
    if l.receiveBoundMs == 0 || l.connectBoundMs == 0 || l.sendBoundMs == 0 {
      return false;
    }
    if l.maxExpandedStates == 0 || l.maxSpurSearches == 0 || l.maxQueueEntries == 0 {
      return false;
    }
    if l.maxRetainedPlans == 0 || l.maxHistoryEntries == 0 || l.maxExplanationEntries == 0 {
      return false;
    }
    if l.maxConstraintsTotal == 0 || l.maxForbiddenIds == 0 || l.maxRequiredIds == 0 {
      return false;
    }
    coherent := l.maxRequiredAnySets != 0 && l.maxMembersInAnySet != 0;
  }
}
