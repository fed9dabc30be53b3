/** Lease issue, lifetime, required constraints and policy bounds. */
module Leases {
  import opened Core

  const CLOCK_SKEW_MS := 30_000

  function Ms(seconds: int): int { 1000 * seconds }

  // ------------------------------------------------------------- lifetime

  function TimeViolation(lease: Lease, at: int, maxAgeSeconds: int, maxTtlSeconds: int): Verdict {
    if lease.issuedAt > at + CLOCK_SKEW_MS then Invalid(LeaseNotYetValid)
    else if at >= lease.expiresAt then Invalid(LeaseExpired)
    else if lease.expiresAt <= lease.issuedAt then Invalid(LeaseTimeWindowInvalid)
    else if lease.expiresAt - lease.issuedAt > Ms(maxTtlSeconds) then Invalid(LeaseTtlTooLong)
    else if at - lease.issuedAt > Ms(maxAgeSeconds) + CLOCK_SKEW_MS then Invalid(LeaseStale)
    else Valid
  }

  /** First and last instant at which a lease can be honoured. */
  function HonouredFrom(lease: Lease): int { lease.issuedAt - CLOCK_SKEW_MS }

  function HonouredUntil(lease: Lease, maxAgeSeconds: int): int {
    var stale := lease.issuedAt + Ms(maxAgeSeconds) + CLOCK_SKEW_MS;
    if stale < lease.expiresAt - 1 then stale else lease.expiresAt - 1
  }

  /**
    The instants at which a lease is honoured form one interval, and it is no longer than
    the lease's own lifetime plus the clock skew, hence than the maximum TTL plus the skew.
   */
  lemma HonouredInterval(lease: Lease, at: int, maxAgeSeconds: int, maxTtlSeconds: int)
    ensures TimeViolation(lease, at, maxAgeSeconds, maxTtlSeconds).Valid? <==>
            && 0 < lease.expiresAt - lease.issuedAt <= Ms(maxTtlSeconds)
            && HonouredFrom(lease) <= at <= HonouredUntil(lease, maxAgeSeconds)
    ensures TimeViolation(lease, at, maxAgeSeconds, maxTtlSeconds).Valid? ==>
            HonouredUntil(lease, maxAgeSeconds) - HonouredFrom(lease)
            < lease.expiresAt - lease.issuedAt + CLOCK_SKEW_MS
            <= Ms(maxTtlSeconds) + CLOCK_SKEW_MS
  {
  }

  // ------------------------------------------------------------- constraints

  predicate ConstraintsMissing(c: LeaseConstraints, r: Requirement) {
    || (r.requireGeofenceId && c.geofenceId.None?)
    || (r.requireNetworkThresholds
        && (c.maxLatencyMsP95.None? || c.maxPacketLossPct.None? || c.minUplinkMbps.None?))
    || (r.requireFallbackOnDegrade && !c.fallbackGiven)
    || (r.requireMaxSpeedMps && c.maxSpeedMps.None?)
  }

  predicate MaxExceeds(value: Option<real>, bound: Option<real>) {
    value.Some? && (bound.None? || value.value > bound.value)
  }

  predicate MinExceeds(value: Option<real>, bound: Option<real>) {
    value.Some? && (bound.None? || value.value < bound.value)
  }

  predicate FallbackExceeds(c: LeaseConstraints, b: Bounds) {
    if b.fallbackOnDegrade.None? then c.fallbackGiven else c.fallbackOnDegrade != b.fallbackOnDegrade.value
  }

  predicate ConstraintsExceedBounds(c: LeaseConstraints, b: Bounds) {
    || (b.geofenceId.Some? && c.geofenceId != b.geofenceId)
    || MaxExceeds(c.maxLatencyMsP95, b.maxLatencyMsP95)
    || MaxExceeds(c.maxPacketLossPct, b.maxPacketLossPct)
    || MinExceeds(c.minUplinkMbps, b.minUplinkMbps)
    || MaxExceeds(c.maxSpeedMps, b.maxSpeedMps)
    || FallbackExceeds(c, b)
  }

  function RequirementViolation(lease: Lease, requirements: map<Capability, Requirement>): Verdict {
    if lease.capability !in requirements || requirements[lease.capability].capability != lease.capability
    then Invalid(ConstraintRequirementsRequired)
    else if ConstraintsMissing(lease.constraints, requirements[lease.capability])
    then Invalid(LeaseConstraintsMissing)
    else Valid
  }

  function BoundViolation(lease: Lease, bounds: map<Capability, Bounds>): Verdict {
    if lease.capability !in bounds || bounds[lease.capability].capability != lease.capability
    then Invalid(ConstraintBoundsRequired)
    else if ConstraintsExceedBounds(lease.constraints, bounds[lease.capability])
    then Invalid(LeaseConstraintsExceedPolicy)
    else Valid
  }

  predicate MatchesContext(
    lease: Lease, agentId: string, edgeAgentId: string, robotId: string, missionId: string, capability: Capability)
  {
    && lease.agentId == agentId && lease.edgeAgentId == edgeAgentId && lease.robotId == robotId
    && lease.missionId == missionId && lease.capability == capability
  }
}
