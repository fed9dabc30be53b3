/** The checks a lease must pass before the gate lets a command through. */
module Conformance {
  import opened Core
  import opened Json
  import opened Leases

  function AuthorityViolation(n: NetworkState): Verdict {
    if n.profile.UnknownProfile? then Invalid(NetworkStateUnknown)
    else if n.profile.Partition? || !n.attached then Invalid(NetworkDetached)
    else Valid
  }

  function TimestampViolation(timestamp: int, now: int, maxAgeSeconds: int): Verdict {
    if timestamp > now + CLOCK_SKEW_MS then Invalid(StateNotYetValid)
    else if now - timestamp > Ms(maxAgeSeconds) + CLOCK_SKEW_MS then Invalid(StateStale)
    else Valid
  }

  function Then(first: Verdict, second: Verdict): Verdict {
    if first.Valid? then second else first
  }

  function StateTimeViolation(state: RobotState, now: int, maxAgeSeconds: int): Verdict {
    Then(TimestampViolation(state.createdAt, now, maxAgeSeconds),
    Then(TimestampViolation(state.observedAt, now, maxAgeSeconds),
    Then(TimestampViolation(state.network.observedAt, now, maxAgeSeconds),
         TimestampViolation(state.geofence.verifiedAt, now, maxAgeSeconds))))
  }

  /** A state assertion is authentic when it is signed under the key registered for its edge. */
  predicate StateAuthentic(cfg: GateConfig, state: RobotState) {
    state.edgeAgentId in cfg.stateKeys && cfg.env.stateSigned(state, cfg.stateKeys[state.edgeAgentId])
  }

  function ProvenanceViolation(cfg: GateConfig, lease: Lease): Verdict {
    if Blank(lease.policyId) || Blank(lease.policyDigest) then Invalid(LeasePolicyProvenanceRequired)
    else if lease.policyId != cfg.acceptedPolicyId || lease.policyDigest !in cfg.acceptedPolicyDigests
    then Invalid(LeasePolicyNotAccepted)
    else Valid
  }

  function ScopeViolation(cfg: GateConfig, lease: Lease): Verdict {
    if lease.capability !in cfg.acceptedCapabilities then Invalid(CapabilityNotGranted)
    else if lease.issuerId !in cfg.issuerScopes || lease.capability !in cfg.issuerScopes[lease.issuerId]
    then Invalid(CapabilityNotGranted)
    else Valid
  }

  predicate RequiresCurrentState(lease: Lease) {
    || lease.capability.RemoteAssist?
    || lease.constraints.geofenceId.Some? || lease.constraints.maxLatencyMsP95.Some?
    || lease.constraints.maxPacketLossPct.Some? || lease.constraints.minUplinkMbps.Some?
  }

  predicate ConstraintsWellFormed(c: LeaseConstraints) {
    && (c.maxLatencyMsP95.Some? ==> c.maxLatencyMsP95.value >= 0.0)
    && (c.maxPacketLossPct.Some? ==> 0.0 <= c.maxPacketLossPct.value <= 100.0)
    && (c.minUplinkMbps.Some? ==> c.minUplinkMbps.value >= 0.0)
    && (c.maxSpeedMps.Some? ==> c.maxSpeedMps.value >= 0.0)
  }

  function AgainstState(lease: Lease, state: RobotState): Verdict {
    var c := lease.constraints;
    var n := state.network;
    if state.robotId != lease.robotId || state.edgeAgentId != lease.edgeAgentId || state.missionId != lease.missionId
    then Invalid(LeaseStateMismatch)
    else if c.geofenceId.Some? && (!state.geofence.inside || state.geofence.geofenceId != c.geofenceId.value)
    then Invalid(GeofenceConstraintViolated)
    else if !NetworkStateWellFormed(n) then Invalid(NetworkStateMalformed)
    else if AuthorityViolation(n).Invalid? then AuthorityViolation(n)
    else if c.maxLatencyMsP95.Some? && n.latencyMsP95 > c.maxLatencyMsP95.value then Invalid(NetworkLatencyTooHigh)
    else if c.maxPacketLossPct.Some? && n.packetLossPct > c.maxPacketLossPct.value
    then Invalid(NetworkPacketLossTooHigh)
    else if c.minUplinkMbps.Some? && n.uplinkMbps < c.minUplinkMbps.value then Invalid(NetworkUplinkTooLow)
    else Valid
  }

  const MAX_SPEED_FIELD := "max_speed_mps"
  const SPEED_FIELD := "speed_mps"

  /** Equality of raw payload values; numbers compare by value, a boolean is not a number. */
  predicate SameRaw(numberValue: string -> real, a: Json, b: Json) {
    if a.Number? && b.Number? then numberValue(a.text) == numberValue(b.text) else a == b
  }

  function AgainstPayload(numberValue: string -> real, constraints: LeaseConstraints, payload: Json): Verdict {
    if !payload.Object? || !(payload.fields.Keys <= {MAX_SPEED_FIELD, SPEED_FIELD})
    then Invalid(CommandPayloadSchemaViolation)
    else if constraints.maxSpeedMps.None?
    then if payload.fields != map[] then Invalid(CommandPayloadSchemaViolation) else Valid
    else if constraints.maxSpeedMps.value < 0.0 then Invalid(LeaseConstraintMalformed)
    else if MAX_SPEED_FIELD in payload.fields && SPEED_FIELD in payload.fields
      && !SameRaw(numberValue, payload.fields[MAX_SPEED_FIELD], payload.fields[SPEED_FIELD])
    then Invalid(CommandSpeedConflict)
    else
      var raw := RawSpeed(payload);
      if raw.Null? then Invalid(CommandSpeedMissing)
      else if !raw.Number? || numberValue(raw.text) < 0.0 then Invalid(CommandSpeedMalformed)
      else if numberValue(raw.text) > constraints.maxSpeedMps.value then Invalid(CommandSpeedTooHigh)
      else Valid
  }

  /** The speed field that counts: `max_speed_mps` when present, else `speed_mps`, else nothing. */
  function RawSpeed(payload: Json): Json
    requires payload.Object?
  {
    if MAX_SPEED_FIELD in payload.fields then payload.fields[MAX_SPEED_FIELD]
    else if SPEED_FIELD in payload.fields then payload.fields[SPEED_FIELD]
    else Null
  }

  function AboutLease(cfg: GateConfig, lease: Lease, command: Command, revoked: set<string>, now: int): Verdict {
    if !lease.supportedVersion then Invalid(ProtocolVersionUnsupported)
    else if lease.issuerId !in cfg.trustedIssuerIds then Invalid(IssuerNotTrusted)
    else if lease.issuerId !in cfg.issuerKeys then Invalid(IssuerKeyNotTrusted)
    else if !cfg.env.leaseSigned(lease, cfg.issuerKeys[lease.issuerId]) then Invalid(InvalidSignature)
    else if ProvenanceViolation(cfg, lease).Invalid? then ProvenanceViolation(cfg, lease)
    else if ScopeViolation(cfg, lease).Invalid? then ScopeViolation(cfg, lease)
    else
      var time := TimeViolation(lease, now, cfg.maxLeaseAgeSeconds, cfg.maxLeaseTtlSeconds);
      if time.Invalid? then time
      else if RequirementViolation(lease, cfg.requirements).Invalid?
      then RequirementViolation(lease, cfg.requirements)
      else if !ConstraintsWellFormed(lease.constraints) then Invalid(LeaseConstraintMalformed)
      else if BoundViolation(lease, cfg.bounds).Invalid? then BoundViolation(lease, cfg.bounds)
      else if !MatchesContext(lease, command.agentId, command.edgeAgentId, command.robotId, command.missionId,
                              command.capability)
      then Invalid(LeaseContextMismatch)
      else if lease.leaseId in revoked then Invalid(LeaseRevoked)
      else Valid
  }

  function AboutState(cfg: GateConfig, lease: Lease, state: Option<RobotState>, now: int): Verdict {
    match state
    case None => if RequiresCurrentState(lease) then Invalid(CurrentStateRequired) else Valid
    case Some(s) =>
      if !StateAuthentic(cfg, s) then Invalid(StateAuthInvalid)
      else if !s.supportedVersion then Invalid(ProtocolVersionUnsupported)
      else Then(StateTimeViolation(s, now, cfg.maxStateAgeSeconds), AgainstState(lease, s))
  }

  /** `validate_lease_for_command`. */
  function ValidateLease(
    cfg: GateConfig, lease: Lease, command: Command, state: Option<RobotState>, revoked: set<string>, now: int): Verdict
  {
    Then(AboutLease(cfg, lease, command, revoked, now),
    Then(AboutState(cfg, lease, state, now),
         AgainstPayload(cfg.env.numberValue, lease.constraints, command.payload)))
  }

  // ------------------------------------------------------------- what an accepted lease is bound to

  /** Lease, command and state speak of the same robot, edge, mission and capability. */
  predicate Bound(lease: Lease, command: Command, state: Option<RobotState>) {
    && command.agentId == lease.agentId && command.edgeAgentId == lease.edgeAgentId
    && command.robotId == lease.robotId && command.missionId == lease.missionId
    && command.capability == lease.capability
    && (state.Some? ==>
        && state.value.robotId == command.robotId && state.value.edgeAgentId == command.edgeAgentId
        && state.value.missionId == command.missionId)
  }

  /** The lease comes from a trusted issuer, signed, within the issuer's scope and under the accepted policy. */
  ghost predicate Entitled(cfg: GateConfig, lease: Lease) {
    && lease.issuerId in cfg.trustedIssuerIds && lease.issuerId in cfg.issuerKeys
    && cfg.env.leaseSigned(lease, cfg.issuerKeys[lease.issuerId])
    && lease.capability in cfg.acceptedCapabilities
    && lease.issuerId in cfg.issuerScopes && lease.capability in cfg.issuerScopes[lease.issuerId]
    && lease.policyId == cfg.acceptedPolicyId && lease.policyDigest in cfg.acceptedPolicyDigests
  }

  lemma AboutLeaseBinds(cfg: GateConfig, lease: Lease, command: Command, revoked: set<string>, now: int)
    requires AboutLease(cfg, lease, command, revoked, now).Valid?
    ensures Entitled(cfg, lease) && Bound(lease, command, None) && lease.leaseId !in revoked
    ensures TimeViolation(lease, now, cfg.maxLeaseAgeSeconds, cfg.maxLeaseTtlSeconds).Valid?
  {
  }

  lemma AboutStateBinds(cfg: GateConfig, lease: Lease, state: Option<RobotState>, now: int)
    requires AboutState(cfg, lease, state, now).Valid?
    ensures RequiresCurrentState(lease) ==> state.Some?
    ensures state.Some? ==>
      && StateAuthentic(cfg, state.value) && AgainstState(lease, state.value).Valid?
      && StateTimeViolation(state.value, now, cfg.maxStateAgeSeconds).Valid?
  {
  }

  /**
    What passes lease validation is one authority chain: an entitled lease, honoured at this
    instant and not revoked, for exactly this agent, edge, robot, mission and capability, in a
    state that is authentic, fresh and about the same robot.
   */
  lemma ValidLeaseIsBound(
    cfg: GateConfig, lease: Lease, command: Command, state: Option<RobotState>, revoked: set<string>, now: int)
    requires ValidateLease(cfg, lease, command, state, revoked, now).Valid?
    ensures Entitled(cfg, lease) && Bound(lease, command, state) && lease.leaseId !in revoked
    ensures HonouredFrom(lease) <= now <= HonouredUntil(lease, cfg.maxLeaseAgeSeconds) && now < lease.expiresAt
    ensures RequiresCurrentState(lease) ==> state.Some?
    ensures state.Some? ==>
      StateAuthentic(cfg, state.value) && StateTimeViolation(state.value, now, cfg.maxStateAgeSeconds).Valid?
  {
    assert AboutLease(cfg, lease, command, revoked, now).Valid? && AboutState(cfg, lease, state, now).Valid?;
    AboutLeaseBinds(cfg, lease, command, revoked, now);
    AboutStateBinds(cfg, lease, state, now);
    HonouredInterval(lease, now, cfg.maxLeaseAgeSeconds, cfg.maxLeaseTtlSeconds);
  }

  // ------------------------------------------------------------- monotonicity in the network

  /** Attached, and with a profile that is neither unknown nor a partition. */
  predicate Connected(n: NetworkState) {
    n.attached && (n.profile.Normal? || n.profile.DegradedTeleop? || n.profile.UplinkBad?)
  }

  /** `worse` is pointwise no better than `better`. */
  predicate NoBetter(worse: NetworkState, better: NetworkState) {
    && (Connected(worse) ==> Connected(better))
    && worse.latencyMsP95 >= better.latencyMsP95
    && worse.packetLossPct >= better.packetLossPct
    && worse.uplinkMbps <= better.uplinkMbps
    && worse.observedAt == better.observedAt
  }

  /** A lease the gate accepts in the worse state is accepted in the better one. */
  lemma BetterNetworkKeepsLease(
    cfg: GateConfig, lease: Lease, command: Command, state: RobotState, better: NetworkState,
    revoked: set<string>, now: int)
    requires NoBetter(state.network, better) && NetworkStateWellFormed(better)
    requires StateAuthentic(cfg, state.(network := better)) == StateAuthentic(cfg, state)
    requires ValidateLease(cfg, lease, command, Some(state), revoked, now).Valid?
    ensures ValidateLease(cfg, lease, command, Some(state.(network := better)), revoked, now).Valid?
  {
    var state' := state.(network := better);
    assert StateTimeViolation(state', now, cfg.maxStateAgeSeconds).Valid?;
    assert AgainstState(lease, state').Valid?;
  }

  /** Lease validation never answers with one of the gate's own replay or routing reasons. */
  lemma ValidationReasons(
    cfg: GateConfig, lease: Lease, command: Command, state: Option<RobotState>, revoked: set<string>, now: int)
    ensures ValidateLease(cfg, lease, command, state, revoked, now) !=
            Invalid(NoLease)
    ensures ValidateLease(cfg, lease, command, state, revoked, now) != Invalid(CommandReplayed)
    ensures ValidateLease(cfg, lease, command, state, revoked, now) != Invalid(LeaseNonceReplayed)
    ensures ValidateLease(cfg, lease, command, state, revoked, now) != Invalid(EdgeAgentMismatch)
    ensures ValidateLease(cfg, lease, command, state, revoked, now) == Invalid(LeaseRevoked) ==> lease.leaseId in revoked
    ensures ValidateLease(cfg, lease, command, state, revoked, now).Valid? ==> lease.leaseId !in revoked
  {
  }
}
