/**
  Grant against enforcement: what the policy service grants and what the gate enforces are
  computed by separate code; these are the theorems that make them compose.
 */
module Grants {
  import opened Core
  import opened Json
  import opened Leases
  import opened Conformance
  import opened Policy
  import opened PolicyConditions
  import GateConditions
  import Gate
  import GateSamples

  // ------------------------------------------------------------- issuing

  /** `issue_lease`; `None` where the source refuses with an error. Ids and clock are inputs. */
  function IssueLease(
    request: Request, constraints: LeaseConstraints, issuerId: string, ttlSeconds: int, policyId: string,
    policyDigest: string, now: int, leaseId: string, nonce: string): Option<Lease>
  {
    if ttlSeconds <= 0 || ttlSeconds > request.requestedDurationSeconds || Blank(policyId) || Blank(policyDigest)
    then None
    else Some(Lease(true, leaseId, issuerId, request.requestingAgentId, request.edgeAgentId, request.robotId,
                    request.missionId, request.capability, constraints, now, now + Ms(ttlSeconds), nonce, policyId,
                    policyDigest))
  }

  /**
    A lease issued from an ALLOW lives no longer than the policy's TTL, and at every gate the
    instants at which it is honoured span less than that TTL plus the clock skew.
   */
  lemma GrantedLifetime(
    s: Service, policy: Policy, request: Request, state: RobotState, cp: Option<ControlPlane>, decidedAt: int,
    issuerId: string, ttlSeconds: int, digest: string, now: int, leaseId: string, nonce: string,
    first: int, last: int, maxAgeSeconds: int, maxTtlSeconds: int)
    requires AfterReplay(s, policy, request, state, cp, decidedAt).decision.Allow?
    requires var constraints := AfterReplay(s, policy, request, state, cp, decidedAt).constraints.value;
      IssueLease(request, constraints, issuerId, ttlSeconds, policy.policyId, digest, now, leaseId, nonce).Some?
    ensures var constraints := AfterReplay(s, policy, request, state, cp, decidedAt).constraints.value;
      var lease := IssueLease(request, constraints, issuerId, ttlSeconds, policy.policyId, digest, now, leaseId, nonce).value;
      && 0 < lease.expiresAt - lease.issuedAt <= Ms(policy.leaseTtlSeconds)
      && (TimeViolation(lease, first, maxAgeSeconds, maxTtlSeconds).Valid?
          && TimeViolation(lease, last, maxAgeSeconds, maxTtlSeconds).Valid?
          ==> last - first < Ms(policy.leaseTtlSeconds) + CLOCK_SKEW_MS)
  {
  }

  // ------------------------------------------------------------- grants fit the gate

  /** Every limit at least as tight, and nothing lifted. */
  predicate NoBroader(c: LeaseConstraints, base: LeaseConstraints) {
    && (base.geofenceId.Some? ==> c.geofenceId == base.geofenceId)
    && NoLarger(c.maxLatencyMsP95, base.maxLatencyMsP95) && NoLarger(c.maxPacketLossPct, base.maxPacketLossPct)
    && NoSmaller(c.minUplinkMbps, base.minUplinkMbps) && NoLarger(c.maxSpeedMps, base.maxSpeedMps)
    && c.fallbackOnDegrade == base.fallbackOnDegrade
  }

  /** A ceiling where there was one, and no higher; none where there was none. */
  predicate NoLarger(limit: Option<real>, base: Option<real>) {
    if base.Some? then limit.Some? && limit.value <= base.value else limit.None?
  }

  predicate NoSmaller(limit: Option<real>, base: Option<real>) {
    if base.Some? then limit.Some? && limit.value >= base.value else limit.None?
  }

  /** Narrowing is accepted exactly when the request asks for nothing broader, and then never broadens. */
  lemma NarrowingNeverBroadens(base: LeaseConstraints, requested: Option<LeaseConstraints>)
    requires base.geofenceId.Some?
    ensures RequestedViolation(base, requested).None? <==> NoBroader(ApplyRequested(base, requested), base)
  {
  }

  /**
    Constraints returned with ALLOW are never broader than the policy's own, pass the bound
    check of a gate configured from the same policy, and pass its requirement check exactly
    when a required speed ceiling exists in the policy.
   */
  lemma GrantFitsGate(
    s: Service, policy: Policy, request: Request, state: RobotState, cp: Option<ControlPlane>, now: int,
    requirement: Requirement)
    requires ValidPolicy(policy) && ValidRequest(request)
    requires AfterReplay(s, policy, request, state, cp, now).decision.Allow?
    ensures var c := AfterReplay(s, policy, request, state, cp, now).constraints.value;
      && NoBroader(c, BaseConstraints(policy, state))
      && ConstraintsWellFormed(c)
      && !ConstraintsExceedBounds(c, PolicyBounds(policy))
      && (!ConstraintsMissing(c, requirement) <==>
          (requirement.requireMaxSpeedMps ==> policy.requirements.maxSpeedMps.Some?))
  {
    var base := BaseConstraints(policy, state);
    NarrowingNeverBroadens(base, request.requestedConstraints);
    assert EarlierOutcome(s, policy, request, state, cp, now).None?;
    assert SiteOutcome(policy, state).None?;
  }

  predicate MeetsThresholds(c: LeaseConstraints, n: NetworkState) {
    && (c.maxLatencyMsP95.Some? ==> n.latencyMsP95 <= c.maxLatencyMsP95.value)
    && (c.maxPacketLossPct.Some? ==> n.packetLossPct <= c.maxPacketLossPct.value)
    && (c.minUplinkMbps.Some? ==> n.uplinkMbps >= c.minUplinkMbps.value)
  }

  /**
    The granting state is accepted for the granted lease exactly when the robot is inside
    the geofence it reported and the network meets the narrowed thresholds.
   */
  lemma GrantingStateAccepted(
    s: Service, policy: Policy, request: Request, state: RobotState, cp: Option<ControlPlane>, now: int, lease: Lease)
    requires AfterReplay(s, policy, request, state, cp, now).decision.Allow?
    requires lease.robotId == request.robotId && lease.edgeAgentId == request.edgeAgentId
    requires lease.missionId == request.missionId
    requires lease.constraints == AfterReplay(s, policy, request, state, cp, now).constraints.value
    ensures AgainstState(lease, state).Valid? <==>
            state.geofence.inside && MeetsThresholds(lease.constraints, state.network)
  {
    assert EarlierOutcome(s, policy, request, state, cp, now).None?;
    assert ScopeOutcome(s, policy, request, state).None? && SiteOutcome(policy, state).None?;
    NarrowingNeverBroadens(BaseConstraints(policy, state), request.requestedConstraints);
  }

  // ------------------------------------------------------------- from grant to command

  lemma AllowIsScoped(
    s: Service, policy: Policy, request: Request, state: RobotState, cp: Option<ControlPlane>, now: int)
    requires AfterReplay(s, policy, request, state, cp, now).decision.Allow?
    ensures s.digest(policy) in s.acceptedDigests && request.capability == policy.capability
    ensures request.requestingAgentId in policy.requirements.allowedAgents
    ensures request.edgeAgentId in policy.requirements.allowedEdgeAgents
    ensures request.robotId in policy.requirements.allowedRobots
    ensures request.missionId in policy.requirements.allowedMissions
    ensures request.requestedDurationSeconds <= policy.leaseTtlSeconds
  {
    assert EarlierOutcome(s, policy, request, state, cp, now).None?;
    assert ScopeOutcome(s, policy, request, state).None?;
  }

  /**
    From grant to command: a command that any gate, under any configuration, lets through on a
    lease issued from an ALLOW comes from an agent, through an edge, to a robot and for a
    mission that the policy lists, and before the policy's TTL has passed since the grant.
   */
  lemma CommandWithinGrant(
    s: Service, policy: Policy, request: Request, granting: RobotState, cp: Option<ControlPlane>, decidedAt: int,
    issuerId: string, ttlSeconds: int, digest: string, issuedAt: int, leaseId: string, nonce: string,
    cfg: GateConfig, command: Command, state: Option<RobotState>, revoked: set<string>, now: int)
    requires AfterReplay(s, policy, request, granting, cp, decidedAt).decision.Allow?
    requires var constraints := AfterReplay(s, policy, request, granting, cp, decidedAt).constraints.value;
      var lease := IssueLease(request, constraints, issuerId, ttlSeconds, policy.policyId, digest, issuedAt, leaseId, nonce);
      lease.Some? && ValidateLease(cfg, lease.value, command, state, revoked, now).Valid?
    ensures command.agentId in policy.requirements.allowedAgents
    ensures command.edgeAgentId in policy.requirements.allowedEdgeAgents
    ensures command.robotId in policy.requirements.allowedRobots
    ensures command.missionId in policy.requirements.allowedMissions
    ensures command.capability == policy.capability
    ensures issuedAt - CLOCK_SKEW_MS <= now < issuedAt + Ms(policy.leaseTtlSeconds)
  {
    AllowIsScoped(s, policy, request, granting, cp, decidedAt);
    var constraints := AfterReplay(s, policy, request, granting, cp, decidedAt).constraints.value;
    var lease := IssueLease(request, constraints, issuerId, ttlSeconds, policy.policyId, digest, issuedAt, leaseId, nonce);
    ValidLeaseIsBound(cfg, lease.value, command, state, revoked, now);
  }

  // ------------------------------------------------------------- enforcement is no laxer than the policy

  /** The gate is configured from the policy and insists on network thresholds. */
  predicate ConfiguredFrom(cfg: GateConfig, policy: Policy) {
    && policy.capability in cfg.bounds && cfg.bounds[policy.capability] == PolicyBounds(policy)
    && policy.capability in cfg.requirements && cfg.requirements[policy.capability].requireNetworkThresholds
  }

  predicate GeofenceMet(policy: Policy, state: RobotState) {
    policy.requirements.geofenceRequired ==>
      Some(state.geofence.geofenceId) == policy.requirements.geofenceId
      && state.geofence.inside == policy.requirements.geofenceAllowed
  }

  /** The payload asks for no speed, or for one within the policy's ceiling. */
  predicate SpeedWithin(numberValue: string -> real, policy: Policy, payload: Json) {
    && payload.Object?
    && (payload.fields == map[] ||
        (policy.requirements.maxSpeedMps.Some? && RawSpeed(payload).Number?
         && 0.0 <= numberValue(RawSpeed(payload).text) <= policy.requirements.maxSpeedMps.value))
  }

  lemma BoundsHold(cfg: GateConfig, policy: Policy, lease: Lease, command: Command, revoked: set<string>, now: int)
    requires ConfiguredFrom(cfg, policy) && lease.capability == policy.capability
    requires AboutLease(cfg, lease, command, revoked, now).Valid?
    ensures !ConstraintsExceedBounds(lease.constraints, PolicyBounds(policy))
    ensures lease.constraints.maxLatencyMsP95.Some? && lease.constraints.maxPacketLossPct.Some?
    ensures lease.constraints.minUplinkMbps.Some?
  {
    assert RequirementViolation(lease, cfg.requirements).Valid?;
    assert BoundViolation(lease, cfg.bounds).Valid?;
  }

  lemma PayloadHolds(numberValue: string -> real, policy: Policy, constraints: LeaseConstraints, payload: Json)
    requires AgainstPayload(numberValue, constraints, payload).Valid?
    requires !MaxExceeds(constraints.maxSpeedMps, policy.requirements.maxSpeedMps)
    ensures SpeedWithin(numberValue, policy, payload)
  {
  }

  /**
    Every command the gate lets through was sent in a state that the policy's network
    evaluation neither denies nor degrades, with a speed within the policy's ceiling. The
    policy's geofence is met exactly when it is not required or the policy wants the robot
    inside: a policy that wants it outside is not what the gate enforces.
   */
  lemma EnforcementWithinPolicy(
    cfg: GateConfig, policy: Policy, lease: Lease, command: Command, state: Option<RobotState>, revoked: set<string>,
    now: int)
    requires ValidPolicy(policy) && ConfiguredFrom(cfg, policy) && lease.capability == policy.capability
    requires ValidateLease(cfg, lease, command, state, revoked, now).Valid?
    ensures state.Some?
    ensures NetworkOutcome(policy.requirements.network, state.value.network, policy.fallback).None?
    ensures NetworkGood(policy.requirements.network, state.value.network)
    ensures GeofenceMet(policy, state.value) <==>
            !policy.requirements.geofenceRequired || policy.requirements.geofenceAllowed
    ensures SpeedWithin(cfg.env.numberValue, policy, command.payload)
  {
    assert AboutLease(cfg, lease, command, revoked, now).Valid?;
    BoundsHold(cfg, policy, lease, command, revoked, now);
    assert AboutState(cfg, lease, state, now).Valid?;
    assert AgainstState(lease, state.value).Valid?;
    PayloadHolds(cfg.env.numberValue, policy, lease.constraints, command.payload);
  }

  // ------------------------------------------------------------- what a grant is good for

  /** The gate trusts the issuer for the policy's capability, accepts the policy and takes its bounds from it. */
  predicate AcceptsGrants(cfg: GateConfig, s: Service, policy: Policy, issuerId: string) {
    && issuerId in cfg.trustedIssuerIds && issuerId in cfg.issuerKeys
    && issuerId in cfg.issuerScopes && policy.capability in cfg.issuerScopes[issuerId]
    && policy.capability in cfg.acceptedCapabilities
    && policy.policyId == cfg.acceptedPolicyId && s.digest(policy) in cfg.acceptedPolicyDigests
    && policy.leaseTtlSeconds <= cfg.maxLeaseTtlSeconds
    && policy.capability in cfg.bounds && cfg.bounds[policy.capability] == PolicyBounds(policy)
    && policy.capability in cfg.requirements && cfg.requirements[policy.capability].capability == policy.capability
    && (cfg.requirements[policy.capability].requireMaxSpeedMps ==> policy.requirements.maxSpeedMps.Some?)
  }

  /** The lease of a grant: signed, honoured at this instant, and not revoked. */
  ghost predicate GrantInForce(
    cfg: GateConfig, lease: Lease, issuedAt: int, ttlSeconds: int, revoked: set<string>, now: int)
  {
    && lease.issuerId in cfg.issuerKeys && cfg.env.leaseSigned(lease, cfg.issuerKeys[lease.issuerId])
    && lease.leaseId !in revoked
    && issuedAt - 30_000 <= now < issuedAt + 1000 * ttlSeconds
    && now <= issuedAt + 1000 * cfg.maxLeaseAgeSeconds + 30_000
  }

  /** The command names who was granted what. */
  predicate NamesGrant(c: Command, r: Request) {
    && c.agentId == r.requestingAgentId && c.edgeAgentId == r.edgeAgentId && c.robotId == r.robotId
    && c.missionId == r.missionId && c.capability == r.capability
  }

  lemma GrantedLimitsKept(cfg: GateConfig, s: Service, policy: Policy, r: Request, granting: RobotState, l: Lease)
    requires ValidPolicy(policy) && ValidRequest(r) && AcceptsGrants(cfg, s, policy, l.issuerId)
    requires Narrows(policy, granting, Asked(r)) && GeofenceGood(policy, granting)
    requires l.capability == policy.capability && l.constraints == Tightest(policy, granting, Asked(r))
    ensures GateConditions.LimitsKept(cfg, l) && GateConditions.StateNeeded(l)
  {
    assert RequirementsSane(policy.requirements.network);
  }

  lemma GrantGenuine(
    cfg: GateConfig, s: Service, policy: Policy, r: Request, c: LeaseConstraints, issuerId: string, ttlSeconds: int,
    issuedAt: int, leaseId: string, nonce: string, l: Lease, now: int)
    requires AcceptsGrants(cfg, s, policy, issuerId) && r.capability == policy.capability
    requires r.requestedDurationSeconds <= policy.leaseTtlSeconds
    requires Some(l) ==
             IssueLease(r, c, issuerId, ttlSeconds, policy.policyId, s.digest(policy), issuedAt, leaseId, nonce)
    ensures l.issuerId == issuerId && l.leaseId == leaseId && l.nonce == nonce && l.constraints == c
    ensures l.capability == policy.capability && l.edgeAgentId == r.edgeAgentId
    ensures GateConditions.LeaseGenuine(cfg, l) <==> cfg.env.leaseSigned(l, cfg.issuerKeys[issuerId])
    ensures GateConditions.LeaseCurrent(cfg, l, now) <==>
            issuedAt - 30_000 <= now < issuedAt + 1000 * ttlSeconds
            && now <= issuedAt + 1000 * cfg.maxLeaseAgeSeconds + 30_000
  {
    GateConditions.NonBlankExactly(l.policyId);
    GateConditions.NonBlankExactly(l.policyDigest);
  }

  /**
    From grant to use, both ways. At a gate that accepts grants of the policy, a command on a
    lease issued from an ALLOW is allowed exactly when the lease is in force, the command is
    genuine, local and names the grant, a genuine state is within the granted limits, the speed
    is, and the rows of the use are fresh: nothing about the lease itself can be refused.
   */
  lemma GrantedUseExactly(
    seen: set<NonceKey>, s: Service, policy: Policy, r: Request, granting: RobotState, cp: Option<ControlPlane>,
    decidedAt: int, issuerId: string, ttlSeconds: int, issuedAt: int, leaseId: string, nonce: string, l: Lease,
    cfg: GateConfig, rows: set<Gate.Row>, memory: map<string, Gate.RevokedLease>, c: Command, state: Option<RobotState>,
    now: int)
    requires ValidPolicy(policy) && ValidRequest(r) && AcceptsGrants(cfg, s, policy, issuerId)
    requires Evaluate(seen, s, policy, r, granting, cp, decidedAt).1.decision.Allow?
    requires var constraints := Evaluate(seen, s, policy, r, granting, cp, decidedAt).1.constraints;
      constraints.Some? && Some(l) == IssueLease(
        r, constraints.value, issuerId, ttlSeconds, policy.policyId, s.digest(policy), issuedAt, leaseId, nonce)
    ensures Gate.Evaluate(cfg, rows, memory, c, Some(l), state, now).1.result.allowed <==>
            && GrantInForce(cfg, l, issuedAt, ttlSeconds, memory.Keys, now)
            && GateConditions.CommandGenuine(cfg, c, now) && r.edgeAgentId == cfg.localEdgeAgentId && NamesGrant(c, r)
            && state.Some? && GateConditions.StateGenuine(cfg, l, state.value, now)
            && GateConditions.StateAllows(Tightest(policy, granting, Asked(r)), state.value)
            && GateConditions.SpeedAllowed(cfg.env.numberValue, Tightest(policy, granting, Asked(r)), c.payload)
            && rows !! GateConditions.RowsOfUse(c, l)
  {
    PolicyConditions.AllowedExactly(seen, s, policy, r, granting, cp, decidedAt);
    var granted := Tightest(policy, granting, Asked(r));
    GrantGenuine(cfg, s, policy, r, granted, issuerId, ttlSeconds, issuedAt, leaseId, nonce, l, now);
    GrantedLimitsKept(cfg, s, policy, r, granting, l);
    GateConditions.AllowedExactly(cfg, rows, memory, c, Some(l), state, now);
  }

  // ------------------------------------------------------------- a policy that wants the robot outside

  function OutsidePolicy(): Policy {
    var p := SamplePolicy();
    p.(requirements := p.requirements.(geofenceRequired := true, geofenceId := Some("g"), geofenceAllowed := false))
  }

  ghost function OutsideGate(): GateConfig {
    GateSamples.SampleGate().(
      requirements := map[RemoteAssist := Requirement(RemoteAssist, false, true, false, false)],
      bounds := map[RemoteAssist := PolicyBounds(OutsidePolicy())])
  }

  function InsideLease(): Lease {
    GateSamples.SampleLease(LeaseConstraints(Some("g"), Some(80.0), Some(1.0), Some(3.0), CrawlToSafeZone, true, None))
  }

  lemma OutsideGateIsConfigured()
    ensures ValidConfig(OutsideGate()) && ValidPolicy(OutsidePolicy()) && ConfiguredFrom(OutsideGate(), OutsidePolicy())
  {
    GateSamples.SampleGateIsValid();
    assert !PythonSpace("g"[0]);
  }

  lemma OutsideGateAcceptsInside()
    ensures ValidateLease(OutsideGate(), InsideLease(), GateSamples.SampleCommand(), Some(GateSamples.SampleState()), {}, 0)
            .Valid?
  {
    assert !PythonSpace("p"[0]) && !PythonSpace("d"[0]);
    assert AboutLease(OutsideGate(), InsideLease(), GateSamples.SampleCommand(), {}, 0).Valid?;
    assert AboutState(OutsideGate(), InsideLease(), Some(GateSamples.SampleState()), 0).Valid?;
  }

  /** A gate configured from a valid policy that wants the robot outside lets a command through inside. */
  lemma OutsideIsNotEnforced()
    ensures exists cfg, policy: Policy, lease: Lease, command, state ::
      && ValidConfig(cfg) && ValidPolicy(policy) && ConfiguredFrom(cfg, policy)
      && lease.capability == policy.capability
      && ValidateLease(cfg, lease, command, Some(state), {}, 0).Valid? && !GeofenceMet(policy, state)
  {
    OutsideGateIsConfigured();
    OutsideGateAcceptsInside();
    var state := GateSamples.SampleState();
    assert !GeofenceMet(OutsidePolicy(), state);
    assert InsideLease().capability == OutsidePolicy().capability;
  }
}
